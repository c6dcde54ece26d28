/**
 * The orchestrator: a builder that holds the manifest and prepare script,
 * presents the browser, turns browser captures into an injector (creating
 * it on the first capture, updating it afterwards), and tears everything
 * down when the injector reports the constructed manifest.
 */
module RequestBuilderModel {
  import opened Wrappers
  import opened ManifestModels

  /** The cookies of a capture, keyed by name, a later cookie replacing an earlier one. */
  function CookieDict(cookies: seq<HTTPCookie>): (r: map<string, HTTPCookie>)
    ensures forall n | n in r :: r[n].name == n && r[n] in cookies
  {
    if |cookies| == 0 then map[]
    else CookieDict(cookies[..|cookies| - 1])[cookies[|cookies| - 1].name := cookies[|cookies| - 1]]
  }

  /** The names in `CookieDict` are exactly the cookie names, so it is no larger than the input. */
  lemma {:induction false} CookieDictKeys(cookies: seq<HTTPCookie>)
    ensures forall n :: n in CookieDict(cookies) <==> exists i | 0 <= i < |cookies| :: cookies[i].name == n
    ensures |CookieDict(cookies)| <= |cookies|
  {
    if |cookies| > 0 {
      var front := cookies[..|cookies| - 1];
      CookieDictKeys(front);
      forall n | n in CookieDict(cookies)
        ensures exists i | 0 <= i < |cookies| :: cookies[i].name == n
      {
        if n != cookies[|cookies| - 1].name {
          var i :| 0 <= i < |front| && front[i].name == n;
          assert cookies[i].name == n;
        }
      }
      forall n | exists i | 0 <= i < |cookies| :: cookies[i].name == n
        ensures n in CookieDict(cookies)
      {
        var i :| 0 <= i < |cookies| && cookies[i].name == n;
        if i < |front| {
          assert front[i].name == n;
        }
      }
    }
  }

  /** Every name maps to the last cookie carrying it. */
  lemma {:induction false} CookieDictLastWins(cookies: seq<HTTPCookie>)
    ensures forall i | 0 <= i < |cookies| && (forall j | i < j < |cookies| :: cookies[j].name != cookies[i].name) ::
      cookies[i].name in CookieDict(cookies) && CookieDict(cookies)[cookies[i].name] == cookies[i]
  {
    if |cookies| > 0 {
      var front := cookies[..|cookies| - 1];
      CookieDictLastWins(front);
      forall i | 0 <= i < |cookies| && (forall j | i < j < |cookies| :: cookies[j].name != cookies[i].name)
        ensures cookies[i].name in CookieDict(cookies) && CookieDict(cookies)[cookies[i].name] == cookies[i]
      {
        if i < |front| {
          assert front[i] == cookies[i];
          forall j | i < j < |front| ensures front[j].name != front[i].name {
            assert front[j] == cookies[j];
          }
        }
      }
    }
  }

  /** The injector as the builder drives it: created once from a capture, fed later captures, closed. */
  class Injector {
    const manifest: ManifestFile
    var cookies: map<string, HTTPCookie>
    var dom: string
    const prepareJS: Option<string>
    var updateCount: nat
    var closeCount: nat

    constructor (manifest: ManifestFile, cookies: map<string, HTTPCookie>, initialDOM: string, prepareJS: Option<string>)
      ensures this.manifest == manifest && this.cookies == cookies && dom == initialDOM && this.prepareJS == prepareJS
      ensures updateCount == 0 && closeCount == 0
    {
      this.manifest := manifest;
      this.cookies := cookies;
      dom := initialDOM;
      this.prepareJS := prepareJS;
      updateCount := 0;
      closeCount := 0;
    }

    method UpdateData(cookies: map<string, HTTPCookie>, dom: string)
      modifies this
      ensures this.cookies == cookies && this.dom == dom
      ensures updateCount == old(updateCount) + 1 && closeCount == old(closeCount)
    {
      this.cookies := cookies;
      this.dom := dom;
      updateCount := updateCount + 1;
    }

    method Close()
      modifies this
      ensures closeCount == old(closeCount) + 1
      ensures cookies == old(cookies) && dom == old(dom) && updateCount == old(updateCount)
    {
      closeCount := closeCount + 1;
    }
  }

  /** The browser screen, presented with the manifest its capture handler keeps. */
  class BrowserView {
    const manifest: ManifestFile
    var inSuperview: bool

    /** `BrowserView()` followed by `present(with:in:)`. */
    constructor (manifest: ManifestFile)
      ensures this.manifest == manifest && inSuperview
    {
      this.manifest := manifest;
      inSuperview := true;
    }

    method RemoveFromSuperview()
      modifies this
      ensures !inSuperview
    {
      inSuperview := false;
    }
  }

  /** The caller's `onManifestConstructed` closure, as the manifests it has received. */
  class ManifestSink {
    var received: seq<ManifestFile>

    constructor ()
      ensures received == []
    {
      received := [];
    }

    method Receive(m: ManifestFile)
      modifies this
      ensures received == old(received) + [m]
    {
      received := received + [m];
    }
  }

  datatype RequestBuilderError = manifestRequired | noParentViewController

  class RequestBuilder {
    var browserView: BrowserView?
    var injector: Injector?
    var onManifestConstructed: ManifestSink?
    /** Whether the weakly held parent view controller still exists. */
    var parentAlive: bool
    var manifest: Option<ManifestFile>
    var prepareJS: Option<string>
    var retainSelf: RequestBuilder?
    /** Every injector this builder has created. */
    ghost var injectors: set<Injector>

    /**
     * At most one injector is open, and it is the current one: every
     * injector created before it has been closed exactly once.
     */
    ghost predicate Valid()
      reads this, injectors
    {
      && (injector != null ==> injector in injectors && injector.closeCount == 0)
      && (forall i | i in injectors && i != injector :: i.closeCount == 1)
    }

    /** Under `Valid()` the current injector is the only open one. */
    lemma OnlyCurrentInjectorOpen()
      requires Valid()
      ensures forall i | i in injectors && i.closeCount == 0 :: i == injector
      ensures injector != null ==> injector.closeCount == 0
    {
    }

    /** `init(parentViewController:)`. */
    constructor ()
      ensures Valid()
      ensures parentAlive && browserView == null && injector == null && onManifestConstructed == null
      ensures manifest == None && prepareJS == None && retainSelf == null && injectors == {}
    {
      parentAlive := true;
      browserView := null;
      injector := null;
      onManifestConstructed := null;
      manifest := None;
      prepareJS := None;
      retainSelf := null;
      injectors := {};
    }

    method WithManifest(manifest: ManifestFile) returns (r: RequestBuilder)
      requires Valid()
      modifies this
      ensures Valid()
      ensures r == this && this.manifest == Some(manifest)
      ensures browserView == old(browserView) && injector == old(injector)
      ensures onManifestConstructed == old(onManifestConstructed) && parentAlive == old(parentAlive)
      ensures prepareJS == old(prepareJS) && retainSelf == old(retainSelf) && injectors == old(injectors)
    {
      this.manifest := Some(manifest);
      r := this;
    }

    method WithPrepareJS(prepareJS: string) returns (r: RequestBuilder)
      requires Valid()
      modifies this
      ensures Valid()
      ensures r == this && this.prepareJS == Some(prepareJS)
      ensures browserView == old(browserView) && injector == old(injector)
      ensures onManifestConstructed == old(onManifestConstructed) && parentAlive == old(parentAlive)
      ensures manifest == old(manifest) && retainSelf == old(retainSelf) && injectors == old(injectors)
    {
      this.prepareJS := Some(prepareJS);
      r := this;
    }

    /** The parent view controller goes away, which clears the weak reference. */
    method ReleaseParent()
      requires Valid()
      modifies this
      ensures Valid()
      ensures !parentAlive
      ensures browserView == old(browserView) && injector == old(injector)
      ensures onManifestConstructed == old(onManifestConstructed) && manifest == old(manifest)
      ensures prepareJS == old(prepareJS) && retainSelf == old(retainSelf) && injectors == old(injectors)
    {
      parentAlive := false;
    }

    /**
     * `showBrowserView`: refuses without a manifest (checked first) or
     * without a parent, changing nothing; otherwise keeps the builder alive,
     * stores the callback and presents a fresh browser carrying the manifest.
     */
    method ShowBrowserView(onManifestConstructed: ManifestSink) returns (err: Option<RequestBuilderError>)
      requires Valid()
      modifies this
      ensures Valid()
      ensures manifest.None? ==> err == Some(manifestRequired)
      ensures manifest.Some? && !parentAlive ==> err == Some(noParentViewController)
      ensures err.Some? ==> unchanged(this)
      ensures err.None? <==> old(manifest).Some? && old(parentAlive)
      ensures err.None? ==>
        && retainSelf == this && this.onManifestConstructed == onManifestConstructed
        && browserView != null && fresh(browserView)
        && browserView.manifest == manifest.value && browserView.inSuperview
      ensures err.None? ==>
        && injector == old(injector) && manifest == old(manifest) && prepareJS == old(prepareJS)
        && parentAlive == old(parentAlive) && injectors == old(injectors)
    {
      if manifest.None? {
        return Some(manifestRequired);
      }
      if !parentAlive {
        return Some(noParentViewController);
      }
      retainSelf := this;
      this.onManifestConstructed := onManifestConstructed;
      var browser := new BrowserView(manifest.value);
      browserView := browser;
      err := None;
    }

    /**
     * The browser's `onClose` handler. The browser has already taken itself
     * off the screen in its own dismissal (`removeFromSuperview` runs before
     * `onClose`), which is not modelled; the handler itself clears only
     * `retainSelf`.
     */
    method BrowserClosed()
      requires Valid()
      modifies this
      ensures Valid()
      ensures retainSelf == null
      ensures browserView == old(browserView) && injector == old(injector)
      ensures onManifestConstructed == old(onManifestConstructed) && parentAlive == old(parentAlive)
      ensures manifest == old(manifest) && prepareJS == old(prepareJS) && injectors == old(injectors)
    {
      retainSelf := null;
    }

    /** `cookiesDictionary(from:)`. */
    method CookiesDictionary(cookies: seq<HTTPCookie>) returns (dict: map<string, HTTPCookie>)
      ensures dict == CookieDict(cookies)
      ensures forall n :: n in dict <==> exists i | 0 <= i < |cookies| :: cookies[i].name == n
      ensures |dict| <= |cookies|
      ensures forall i | 0 <= i < |cookies| && (forall j | i < j < |cookies| :: cookies[j].name != cookies[i].name) ::
        dict[cookies[i].name] == cookies[i]
    {
      dict := map[];
      for k := 0 to |cookies|
        invariant dict == CookieDict(cookies[..k])
      {
        assert cookies[..k + 1][..k] == cookies[..k];
        dict := dict[cookies[k].name := cookies[k]];
      }
      assert cookies[..|cookies|] == cookies;
      CookieDictKeys(cookies);
      CookieDictLastWins(cookies);
    }

    /**
     * `createInjector`: nothing happens when the parent is gone; otherwise
     * a fresh injector becomes the current one.
     */
    method CreateInjector(manifest: ManifestFile, cookies: map<string, HTTPCookie>, dom: string, prepareJS: Option<string>)
      requires Valid() && injector == null
      modifies this
      ensures Valid()
      ensures !parentAlive ==> injector == null && injectors == old(injectors)
      ensures parentAlive ==>
        && injector != null && fresh(injector) && injectors == old(injectors) + {injector}
        && injector.manifest == manifest && injector.cookies == cookies && injector.dom == dom
        && injector.prepareJS == prepareJS && injector.updateCount == 0
      ensures browserView == old(browserView) && onManifestConstructed == old(onManifestConstructed)
      ensures parentAlive == old(parentAlive) && this.manifest == old(this.manifest)
      ensures this.prepareJS == old(this.prepareJS) && retainSelf == old(retainSelf)
    {
      if !parentAlive {
        return;
      }
      var newInjector := new Injector(manifest, cookies, dom, prepareJS);
      injector := newInjector;
      injectors := injectors + {newInjector};
    }

    /** `didCaptureData`: the first capture creates the injector, later ones update it. */
    method DidCaptureData(cookies: seq<HTTPCookie>, dom: string, manifest: ManifestFile, prepareJS: Option<string>)
      requires Valid()
      modifies this, injector
      ensures Valid()
      ensures old(injector) != null ==>
        && injector == old(injector) && injectors == old(injectors)
        && injector.cookies == CookieDict(cookies) && injector.dom == dom
        && injector.updateCount == old(injector.updateCount) + 1
      ensures old(injector) == null && !parentAlive ==> injector == null && injectors == old(injectors)
      ensures old(injector) == null && parentAlive ==>
        && injector != null && fresh(injector) && injectors == old(injectors) + {injector}
        && injector.manifest == manifest && injector.cookies == CookieDict(cookies) && injector.dom == dom
        && injector.prepareJS == prepareJS && injector.updateCount == 0
      ensures browserView == old(browserView) && onManifestConstructed == old(onManifestConstructed)
      ensures parentAlive == old(parentAlive) && this.manifest == old(this.manifest)
      ensures this.prepareJS == old(this.prepareJS) && retainSelf == old(retainSelf)
    {
      var cookiesDict := CookiesDictionary(cookies);
      if injector == null {
        CreateInjector(manifest, cookiesDict, dom, prepareJS);
      } else {
        injector.UpdateData(cookiesDict, dom);
      }
    }

    /**
     * The browser's `onCapture` handler: the manifest is the one the
     * browser was presented with, the prepare script the builder's current one.
     */
    method OnCapture(browser: BrowserView, cookies: seq<HTTPCookie>, dom: string)
      requires Valid()
      modifies this, injector
      ensures Valid()
      ensures old(injector) != null ==>
        && injector == old(injector) && injectors == old(injectors)
        && injector.cookies == CookieDict(cookies) && injector.dom == dom
        && injector.updateCount == old(injector.updateCount) + 1
      ensures old(injector) == null && !parentAlive ==> injector == null && injectors == old(injectors)
      ensures old(injector) == null && parentAlive ==>
        && injector != null && fresh(injector) && injectors == old(injectors) + {injector}
        && injector.manifest == browser.manifest && injector.prepareJS == prepareJS
        && injector.cookies == CookieDict(cookies) && injector.dom == dom && injector.updateCount == 0
      ensures browserView == old(browserView) && onManifestConstructed == old(onManifestConstructed)
      ensures parentAlive == old(parentAlive) && manifest == old(manifest)
      ensures prepareJS == old(prepareJS) && retainSelf == old(retainSelf)
    {
      DidCaptureData(cookies, dom, browser.manifest, prepareJS);
    }

    /**
     * `cleanup`: removes the browser from the screen, closes the injector
     * once, and clears the browser, the injector and `retainSelf`.
     */
    method Cleanup()
      requires Valid()
      modifies this, browserView, injector
      ensures Valid()
      ensures browserView == null && injector == null && retainSelf == null
      ensures old(browserView) != null ==> !old(browserView).inSuperview
      ensures old(injector) != null ==>
        && old(injector).closeCount == 1
        && old(injector).updateCount == old(injector.updateCount)
      ensures onManifestConstructed == old(onManifestConstructed) && parentAlive == old(parentAlive)
      ensures manifest == old(manifest) && prepareJS == old(prepareJS) && injectors == old(injectors)
    {
      if browserView != null {
        browserView.RemoveFromSuperview();
      }
      browserView := null;
      if injector != null {
        injector.Close();
      }
      injector := null;
      retainSelf := null;
    }

    /** The injector's `onComplete` handler: deliver the manifest to the callback, then clean up. */
    method OnInjectorComplete(updatedManifest: ManifestFile)
      requires Valid()
      modifies this, browserView, injector, onManifestConstructed
      ensures Valid()
      ensures onManifestConstructed == old(onManifestConstructed)
      ensures onManifestConstructed != null ==>
        onManifestConstructed.received == old(onManifestConstructed.received) + [updatedManifest]
      ensures browserView == null && injector == null && retainSelf == null
      ensures old(browserView) != null ==> !old(browserView).inSuperview
      ensures old(injector) != null ==>
        && old(injector).closeCount == 1
        && old(injector).updateCount == old(injector.updateCount)
      ensures parentAlive == old(parentAlive) && manifest == old(manifest)
      ensures prepareJS == old(prepareJS) && injectors == old(injectors)
    {
      if onManifestConstructed != null {
        onManifestConstructed.Receive(updatedManifest);
      }
      Cleanup();
    }
  }

  /**
   * One session end to end: configure, show, reconfigure, capture twice,
   * complete.  The injector is created once, from the manifest the browser
   * was shown with and the prepare script set after showing, is updated by
   * the second capture, and is closed once after the callback has the
   * constructed manifest.
   */
  method CaptureSession(
    shown: ManifestFile, later: ManifestFile, script: string,
    cookies: seq<HTTPCookie>, dom: string, laterDOM: string, constructed: ManifestFile)
    returns (injectorManifest: ManifestFile, injectorScript: Option<string>, updates: nat,
             closes: nat, delivered: seq<ManifestFile>, builderInjector: Injector?)
    ensures injectorManifest == shown && injectorScript == Some(script)
    ensures updates == 1 && closes == 1 && delivered == [constructed] && builderInjector == null
  {
    var builder := new RequestBuilder();
    var _ := builder.WithManifest(shown);
    var sink := new ManifestSink();
    var err := builder.ShowBrowserView(sink);
    var browser := builder.browserView;
    var _ := builder.WithManifest(later);
    var _ := builder.WithPrepareJS(script);
    builder.OnCapture(browser, cookies, dom);
    var injector := builder.injector;
    builder.OnCapture(browser, cookies, laterDOM);
    builder.OnInjectorComplete(constructed);
    injectorManifest, injectorScript, updates := injector.manifest, injector.prepareJS, injector.updateCount;
    closes, delivered, builderInjector := injector.closeCount, sink.received, builder.injector;
  }

  /** Without a manifest, showing fails with `manifestRequired` even when the parent is gone too. */
  method ManifestCheckedFirst() returns (err: Option<RequestBuilderError>, kept: RequestBuilder?)
    ensures err == Some(manifestRequired) && kept == null
  {
    var builder := new RequestBuilder();
    builder.ReleaseParent();
    var sink := new ManifestSink();
    err := builder.ShowBrowserView(sink);
    kept := builder.retainSelf;
  }
}
