/** Which dependency brings which packages, commands and memory. */
module Detection {
  import opened Json
  import opened Text
  import opened Provision

  /** Some dependency's name contains `n`. */
  predicate Mentions(deps: seq<string>, n: string) {
    exists i :: 0 <= i < |deps| && Contains(deps[i], n)
  }

  lemma OneNeedle(deps: seq<string>, a: string)
    ensures DepsContain(deps, [a]) <==> Mentions(deps, a)
  {
    if i :| 0 <= i < |deps| && Contains(deps[i], a) { assert Contains(deps[i], [a][0]); }
  }

  lemma TwoNeedles(deps: seq<string>, a: string, b: string)
    ensures DepsContain(deps, [a, b]) <==> Mentions(deps, a) || Mentions(deps, b)
  {
    if i :| 0 <= i < |deps| && Contains(deps[i], a) { assert Contains(deps[i], [a, b][0]); }
    if i :| 0 <= i < |deps| && Contains(deps[i], b) { assert Contains(deps[i], [a, b][1]); }
  }

  lemma ThreeNeedles(deps: seq<string>, a: string, b: string, c: string)
    ensures DepsContain(deps, [a, b, c]) <==> Mentions(deps, a) || Mentions(deps, b) || Mentions(deps, c)
  {
    if i :| 0 <= i < |deps| && Contains(deps[i], a) { assert Contains(deps[i], [a, b, c][0]); }
    if i :| 0 <= i < |deps| && Contains(deps[i], b) { assert Contains(deps[i], [a, b, c][1]); }
    if i :| 0 <= i < |deps| && Contains(deps[i], c) { assert Contains(deps[i], [a, b, c][2]); }
  }

  /** A longer needle that contains a shorter one adds nothing. */
  lemma LongerNeedle(deps: seq<string>, head: string, n: string, tail: string)
    requires Mentions(deps, head + n + tail)
    ensures Mentions(deps, n)
  {
    var i :| 0 <= i < |deps| && Contains(deps[i], head + n + tail);
    ContainsMiddle(head, n, tail);
    ContainsTransitive(deps[i], head + n + tail, n);
  }

  // ----- When each detector matches -----

  lemma PlaywrightNodeIff(p: Project)
    ensures DetectPlaywrightNode(p) == if Mentions(p.nodeDeps, "playwright") then Some(PlaywrightNode()) else None
  {
    ThreeNeedles(p.nodeDeps, "playwright", "@playwright/test", "playwright-core");
    assert "@playwright/test" == "@" + "playwright" + "/test" && "playwright-core" == "" + "playwright" + "-core";
    if Mentions(p.nodeDeps, "@playwright/test") { LongerNeedle(p.nodeDeps, "@", "playwright", "/test"); }
    if Mentions(p.nodeDeps, "playwright-core") { LongerNeedle(p.nodeDeps, "", "playwright", "-core"); }
  }

  lemma PuppeteerNodeIff(p: Project)
    ensures DetectPuppeteerNode(p) == if Mentions(p.nodeDeps, "puppeteer") then Some(PuppeteerNode()) else None
  {
    TwoNeedles(p.nodeDeps, "puppeteer", "puppeteer-core");
    assert "puppeteer-core" == "" + "puppeteer" + "-core";
    if Mentions(p.nodeDeps, "puppeteer-core") { LongerNeedle(p.nodeDeps, "", "puppeteer", "-core"); }
  }

  lemma PlaywrightPythonIff(p: Project)
    ensures DetectPlaywrightPython(p) == if Mentions(p.pythonDeps, "playwright") then Some(PlaywrightPython()) else None
  {
    OneNeedle(p.pythonDeps, "playwright");
  }

  lemma SeleniumPythonIff(p: Project)
    ensures DetectSeleniumPython(p) == if Mentions(p.pythonDeps, "selenium") then Some(SeleniumPython()) else None
  {
    OneNeedle(p.pythonDeps, "selenium");
  }

  lemma BrowserGoIff(p: Project)
    ensures DetectBrowserGo(p) ==
      if Mentions(p.goDeps, "go-rod/rod") || Mentions(p.goDeps, "chromedp/chromedp") then Some(BrowserGo()) else None
  {
    TwoNeedles(p.goDeps, "go-rod/rod", "chromedp/chromedp");
  }

  lemma FfmpegNodeIff(p: Project)
    ensures DetectFfmpegNode(p) == if Mentions(p.nodeDeps, "fluent-ffmpeg") then Some(FfmpegNode()) else None
  {
    OneNeedle(p.nodeDeps, "fluent-ffmpeg");
  }

  lemma OpencvPythonIff(p: Project)
    ensures DetectOpencvPython(p) ==
      if Mentions(p.pythonDeps, "opencv-python") || Mentions(p.pythonDeps, "opencv-contrib-python") then Some(OpencvPython()) else None
  {
    TwoNeedles(p.pythonDeps, "opencv-python", "opencv-contrib-python");
  }

  /** Nothing is provisioned exactly when no dependency mentions any of these libraries. */
  lemma NothingFoundIff(p: Project)
    ensures NothingFound(Detections(p)) <==>
      && !Mentions(p.nodeDeps, "playwright") && !Mentions(p.nodeDeps, "puppeteer") && !Mentions(p.nodeDeps, "fluent-ffmpeg")
      && !Mentions(p.pythonDeps, "playwright") && !Mentions(p.pythonDeps, "selenium")
      && !Mentions(p.pythonDeps, "opencv-python") && !Mentions(p.pythonDeps, "opencv-contrib-python")
      && !Mentions(p.goDeps, "go-rod/rod") && !Mentions(p.goDeps, "chromedp/chromedp")
  {
    PlaywrightNodeIff(p);
    PuppeteerNodeIff(p);
    PlaywrightPythonIff(p);
    SeleniumPythonIff(p);
    BrowserGoIff(p);
    FfmpegNodeIff(p);
    OpencvPythonIff(p);
    SevenNone(DetectPlaywrightNode(p), DetectPuppeteerNode(p), DetectPlaywrightPython(p), DetectSeleniumPython(p),
              DetectBrowserGo(p), DetectFfmpegNode(p), DetectOpencvPython(p));
  }

  lemma SevenNone(a: Option<Provision>, b: Option<Provision>, c: Option<Provision>, d: Option<Provision>,
                  e: Option<Provision>, f: Option<Provision>, g: Option<Provision>)
    ensures NothingFound([a, b, c, d, e, f, g]) <==>
      a.None? && b.None? && c.None? && d.None? && e.None? && f.None? && g.None?
  {
    var s := [a, b, c, d, e, f, g];
    assert s[0] == a && s[1] == b && s[2] == c && s[3] == d && s[4] == e && s[5] == f && s[6] == g;
  }

  // ----- All that a project gets -----

  predicate OneAsks(found: Option<Provision>, field: Field, x: string) {
    found.Some? && x in Items(found.value, field)
  }

  lemma SevenAsk(a: Option<Provision>, b: Option<Provision>, c: Option<Provision>, d: Option<Provision>,
                 e: Option<Provision>, f: Option<Provision>, g: Option<Provision>, field: Field, x: string)
    ensures x in Items(MergeAll([a, b, c, d, e, f, g]), field) <==>
      || OneAsks(a, field, x) || OneAsks(b, field, x) || OneAsks(c, field, x) || OneAsks(d, field, x)
      || OneAsks(e, field, x) || OneAsks(f, field, x) || OneAsks(g, field, x)
  {
    var s := [a, b, c, d, e, f, g];
    SomeAsks(s, field, x);
    OneOfSeven(s, field, x);
    assert s[0] == a && s[1] == b && s[2] == c && s[3] == d && s[4] == e && s[5] == f && s[6] == g;
  }

  lemma SomeAsks(found: seq<Option<Provision>>, field: Field, x: string)
    ensures x in Items(MergeAll(found), field) <==> exists i :: 0 <= i < |found| && OneAsks(found[i], field, x)
  {
    MergeAllItems(found, field, x);
  }

  lemma OneOfSeven(s: seq<Option<Provision>>, field: Field, x: string)
    requires |s| == 7
    ensures (exists i :: 0 <= i < |s| && OneAsks(s[i], field, x)) <==>
      || OneAsks(s[0], field, x) || OneAsks(s[1], field, x) || OneAsks(s[2], field, x) || OneAsks(s[3], field, x)
      || OneAsks(s[4], field, x) || OneAsks(s[5], field, x) || OneAsks(s[6], field, x)
  {
  }

  lemma DetectedAsk(p: Project, field: Field, x: string)
    ensures x in Items(Detected(p), field) <==>
      || OneAsks(DetectPlaywrightNode(p), field, x) || OneAsks(DetectPuppeteerNode(p), field, x)
      || OneAsks(DetectPlaywrightPython(p), field, x) || OneAsks(DetectSeleniumPython(p), field, x)
      || OneAsks(DetectBrowserGo(p), field, x) || OneAsks(DetectFfmpegNode(p), field, x)
      || OneAsks(DetectOpencvPython(p), field, x)
  {
    SevenAsk(DetectPlaywrightNode(p), DetectPuppeteerNode(p), DetectPlaywrightPython(p), DetectSeleniumPython(p),
             DetectBrowserGo(p), DetectFfmpegNode(p), DetectOpencvPython(p), field, x);
  }

  lemma BrowserPackages(x: string)
    ensures x !in PlaywrightNode().aptPackages && x !in PlaywrightPython().aptPackages
    ensures PuppeteerNode().aptPackages == ChromiumLibs()
  {
  }

  lemma PackagesOf(x: string)
    ensures x in SeleniumPython().aptPackages <==> x == "chromium" || x == "chromium-driver"
    ensures x in BrowserGo().aptPackages <==> x == "chromium"
    ensures x in FfmpegNode().aptPackages <==> x == "ffmpeg"
    ensures x in OpencvPython().aptPackages <==> x == "libgl1" || x == "libglib2.0-0"
  {
  }

  /** Exactly which packages a project gets, by its dependencies. */
  lemma PackagesExact(p: Project, x: string)
    ensures x in Detected(p).aptPackages <==>
      || (Mentions(p.nodeDeps, "puppeteer") && x in ChromiumLibs())
      || (Mentions(p.pythonDeps, "selenium") && (x == "chromium" || x == "chromium-driver"))
      || ((Mentions(p.goDeps, "go-rod/rod") || Mentions(p.goDeps, "chromedp/chromedp")) && x == "chromium")
      || (Mentions(p.nodeDeps, "fluent-ffmpeg") && x == "ffmpeg")
      || ((Mentions(p.pythonDeps, "opencv-python") || Mentions(p.pythonDeps, "opencv-contrib-python"))
          && (x == "libgl1" || x == "libglib2.0-0"))
  {
    DetectedAsk(p, Packages, x);
    BrowserPackages(x);
    PackagesOf(x);
    DetectorsIff(p);
  }

  lemma DetectorsIff(p: Project)
    ensures DetectPlaywrightNode(p) == if Mentions(p.nodeDeps, "playwright") then Some(PlaywrightNode()) else None
    ensures DetectPuppeteerNode(p) == if Mentions(p.nodeDeps, "puppeteer") then Some(PuppeteerNode()) else None
    ensures DetectPlaywrightPython(p) == if Mentions(p.pythonDeps, "playwright") then Some(PlaywrightPython()) else None
    ensures DetectSeleniumPython(p) == if Mentions(p.pythonDeps, "selenium") then Some(SeleniumPython()) else None
    ensures DetectBrowserGo(p) ==
      if Mentions(p.goDeps, "go-rod/rod") || Mentions(p.goDeps, "chromedp/chromedp") then Some(BrowserGo()) else None
    ensures DetectFfmpegNode(p) == if Mentions(p.nodeDeps, "fluent-ffmpeg") then Some(FfmpegNode()) else None
    ensures DetectOpencvPython(p) ==
      if Mentions(p.pythonDeps, "opencv-python") || Mentions(p.pythonDeps, "opencv-contrib-python") then Some(OpencvPython()) else None
  {
    PlaywrightNodeIff(p);
    PuppeteerNodeIff(p);
    PlaywrightPythonIff(p);
    SeleniumPythonIff(p);
    BrowserGoIff(p);
    FfmpegNodeIff(p);
    OpencvPythonIff(p);
  }

  lemma NoCommandsOf()
    ensures SeleniumPython().postInstall == [] && BrowserGo().postInstall == []
    ensures FfmpegNode().postInstall == [] && OpencvPython().postInstall == []
    ensures SeleniumPython().skipIfContains == [] && BrowserGo().skipIfContains == []
    ensures FfmpegNode().skipIfContains == [] && OpencvPython().skipIfContains == []
  {
  }

  lemma CommandsOf(x: string)
    ensures x in PlaywrightNode().postInstall <==> x == "npx " + "playwright install" + " --with-deps chromium"
    ensures x in PuppeteerNode().postInstall <==> x == "npx " + "puppeteer browsers install" + " chrome"
    ensures x in PlaywrightPython().postInstall <==> x == "playwright install" + " --with-deps chromium"
  {
  }

  /** Exactly which commands. */
  lemma CommandsExact(p: Project, x: string)
    ensures x in Detected(p).postInstall <==>
      || (Mentions(p.nodeDeps, "playwright") && x == "npx " + "playwright install" + " --with-deps chromium")
      || (Mentions(p.nodeDeps, "puppeteer") && x == "npx " + "puppeteer browsers install" + " chrome")
      || (Mentions(p.pythonDeps, "playwright") && x == "playwright install" + " --with-deps chromium")
  {
    DetectedAsk(p, Commands, x);
    CommandsOf(x);
    NoCommandsOf();
    DetectorsIff(p);
  }

  lemma MarkersOf(x: string)
    ensures x in PlaywrightNode().skipIfContains <==> x == "playwright install"
    ensures x in PuppeteerNode().skipIfContains <==> x == "puppeteer browsers install" || x == "playwright install"
    ensures x in PlaywrightPython().skipIfContains <==> x == "playwright install"
  {
  }

  /** Exactly which markers keep the commands from being injected. */
  lemma MarkersExact(p: Project, x: string)
    ensures x in Detected(p).skipIfContains <==>
      || (x == "playwright install" && (Mentions(p.nodeDeps, "playwright") || Mentions(p.nodeDeps, "puppeteer")
                                        || Mentions(p.pythonDeps, "playwright")))
      || (x == "puppeteer browsers install" && Mentions(p.nodeDeps, "puppeteer"))
  {
    DetectedAsk(p, Markers, x);
    MarkersOf(x);
    NoCommandsOf();
    DetectorsIff(p);
  }

  predicate Asks(found: Option<Provision>, mb: nat) {
    found.Some? && found.value.minMemory == Some(mb)
  }

  predicate AtMost(found: Option<Provision>, mb: nat) {
    found.Some? ==> found.value.minMemory.None? || found.value.minMemory == Some(mb)
  }

  lemma SevenMemory(s: seq<Option<Provision>>, mb: nat)
    requires forall i :: 0 <= i < |s| ==> AtMost(s[i], mb)
    ensures MergeAll(s).minMemory == if exists i :: 0 <= i < |s| && Asks(s[i], mb) then Some(mb) else None
  {
    MergeAllMemory(s);
  }

  lemma MemoryOf()
    ensures PlaywrightNode().minMemory == Some(2048) && PuppeteerNode().minMemory == Some(2048)
    ensures PlaywrightPython().minMemory == Some(2048) && SeleniumPython().minMemory == Some(2048)
    ensures BrowserGo().minMemory == Some(2048) && FfmpegNode().minMemory == None && OpencvPython().minMemory == None
  {
  }

  lemma SevenAskMemory(a: Option<Provision>, b: Option<Provision>, c: Option<Provision>, d: Option<Provision>,
                       e: Option<Provision>, f: Option<Provision>, g: Option<Provision>, mb: nat)
    requires AtMost(a, mb) && AtMost(b, mb) && AtMost(c, mb) && AtMost(d, mb) && AtMost(e, mb) && AtMost(f, mb) && AtMost(g, mb)
    ensures MergeAll([a, b, c, d, e, f, g]).minMemory ==
      if Asks(a, mb) || Asks(b, mb) || Asks(c, mb) || Asks(d, mb) || Asks(e, mb) || Asks(f, mb) || Asks(g, mb) then Some(mb) else None
  {
    var s := [a, b, c, d, e, f, g];
    assert s[0] == a && s[1] == b && s[2] == c && s[3] == d && s[4] == e && s[5] == f && s[6] == g;
    SevenMemory(s, mb);
  }

  /** A project that drives a browser gets 2048 MB, any other no memory floor. */
  lemma MemoryExact(p: Project)
    ensures Detected(p).minMemory ==
      if Mentions(p.nodeDeps, "playwright") || Mentions(p.nodeDeps, "puppeteer") || Mentions(p.pythonDeps, "playwright")
         || Mentions(p.pythonDeps, "selenium") || Mentions(p.goDeps, "go-rod/rod") || Mentions(p.goDeps, "chromedp/chromedp")
      then Some(2048) else None
  {
    MemoryOf();
    DetectorsIff(p);
    SevenAskMemory(DetectPlaywrightNode(p), DetectPuppeteerNode(p), DetectPlaywrightPython(p), DetectSeleniumPython(p),
                   DetectBrowserGo(p), DetectFfmpegNode(p), DetectOpencvPython(p), 2048);
  }
}
