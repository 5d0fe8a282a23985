/** System dependencies: what a project's libraries need, and its injection into a Dockerfile. */
module Provision {
  import opened Json
  import opened Text
  import opened Lines

  datatype Provision = Provision(
    aptPackages: seq<string>,
    postInstall: seq<string>,
    minMemory: Option<nat>,
    warnings: seq<string>,
    skipIfContains: seq<string>)
  {
    predicate IsEmpty() {
      aptPackages == [] && postInstall == [] && minMemory.None?
    }
  }

  const NOTHING := Provision([], [], None, [], [])

  // ----- Merging -----

  /** `xs` followed by the elements of `ys` it does not have yet, each once. */
  function AddNew(xs: seq<string>, ys: seq<string>): seq<string> {
    if ys == [] then xs
    else
      var front := AddNew(xs, ys[..|ys| - 1]);
      var y := ys[|ys| - 1];
      if y in front then front else front + [y]
  }

  function LargerOf(a: Option<nat>, b: Option<nat>): Option<nat> {
    if a.None? then b else if b.None? then a else Some(if a.value >= b.value then a.value else b.value)
  }

  function Merge(p: Provision, q: Provision): Provision {
    Provision(
      AddNew(p.aptPackages, q.aptPackages),
      p.postInstall + q.postInstall,
      LargerOf(p.minMemory, q.minMemory),
      p.warnings + q.warnings,
      AddNew(p.skipIfContains, q.skipIfContains))
  }

  method PushMissing(xs: seq<string>, ys: seq<string>) returns (r: seq<string>)
    ensures r == AddNew(xs, ys)
  {
    r := xs;
    for i := 0 to |ys|
      invariant r == AddNew(xs, ys[..i])
    {
      assert ys[..i + 1][..i] == ys[..i];
      if ys[i] !in r { r := r + [ys[i]]; }
    }
    assert ys[..|ys|] == ys;
  }

  method MergeInto(p: Provision, q: Provision) returns (r: Provision)
    ensures r == Merge(p, q)
  {
    var apt := PushMissing(p.aptPackages, q.aptPackages);
    var skip := PushMissing(p.skipIfContains, q.skipIfContains);
    r := Provision(apt, p.postInstall + q.postInstall, LargerOf(p.minMemory, q.minMemory), p.warnings + q.warnings, skip);
  }

  predicate Distinct(xs: seq<string>) {
    forall i, j :: 0 <= i < j < |xs| ==> xs[i] != xs[j]
  }

  /** Merging lists: the first stays in front, exactly the new elements follow, none twice. */
  lemma {:induction false} AddNewFacts(xs: seq<string>, ys: seq<string>)
    ensures xs <= AddNew(xs, ys)
    ensures forall x :: x in AddNew(xs, ys) <==> x in xs || x in ys
    ensures Distinct(xs) ==> Distinct(AddNew(xs, ys))
  {
    if ys != [] {
      AddNewFacts(xs, ys[..|ys| - 1]);
      assert ys == ys[..|ys| - 1] + [ys[|ys| - 1]];
    }
  }

  // ----- Detectors -----

  datatype Project = Project(nodeDeps: seq<string>, pythonDeps: seq<string>, goDeps: seq<string>)

  predicate DepsContain(deps: seq<string>, needles: seq<string>) {
    exists i, j :: 0 <= i < |deps| && 0 <= j < |needles| && Contains(deps[i], needles[j])
  }

  const BROWSER_MEMORY: nat := 2048
  const PLAYWRIGHT := "playwright install"
  const PUPPETEER := "puppeteer browsers install"

  const BASE_LIBS: seq<string> := ["ca-certificates", "fonts-liberation", "libasound2"]
  const TOOLKIT_LIBS: seq<string> := ["libatk-bridge2.0-0", "libatk1.0-0", "libcups2"]
  const SYSTEM_LIBS: seq<string> := ["libdbus-1-3", "libdrm2", "libgbm1", "libnspr4", "libnss3", "libxcomposite1"]
  const WINDOW_LIBS: seq<string> := ["libxdamage1", "libxfixes3", "libxkbcommon0"]
  const DRAWING_LIBS: seq<string> := ["libxrandr2", "libpango-1.0-0", "libcairo2"]

  function ChromiumLibs(): seq<string> {
    BASE_LIBS + TOOLKIT_LIBS + SYSTEM_LIBS + WINDOW_LIBS + DRAWING_LIBS
  }

  function PlaywrightNode(): Provision {
    NOTHING.(postInstall := ["npx " + PLAYWRIGHT + " --with-deps chromium"], minMemory := Some(BROWSER_MEMORY),
             skipIfContains := [PLAYWRIGHT])
  }

  function PuppeteerNode(): Provision {
    Provision(ChromiumLibs(), ["npx " + PUPPETEER + " chrome"], Some(BROWSER_MEMORY),
      ["Puppeteer in a container must launch with `--no-sandbox` (and ideally `--disable-dev-shm-usage`). "
       + "Ensure your server passes these args."],
      [PUPPETEER, PLAYWRIGHT])
  }

  function PlaywrightPython(): Provision {
    NOTHING.(postInstall := [PLAYWRIGHT + " --with-deps chromium"], minMemory := Some(BROWSER_MEMORY),
             skipIfContains := [PLAYWRIGHT])
  }

  function SeleniumPython(): Provision {
    NOTHING.(aptPackages := ["chromium", "chromium-driver"], minMemory := Some(BROWSER_MEMORY),
             warnings := ["Selenium in a container should launch Chrome with `--no-sandbox`."])
  }

  function BrowserGo(): Provision {
    NOTHING.(aptPackages := ["chromium"], minMemory := Some(BROWSER_MEMORY))
  }

  function FfmpegNode(): Provision {
    NOTHING.(aptPackages := ["ffmpeg"])
  }

  function OpencvPython(): Provision {
    NOTHING.(aptPackages := ["libgl1", "libglib2.0-0"])
  }

  function When(c: bool, p: Provision): Option<Provision> {
    if c then Some(p) else None
  }

  function DetectPlaywrightNode(p: Project): Option<Provision> {
    When(DepsContain(p.nodeDeps, ["playwright", "@playwright/test", "playwright-core"]), PlaywrightNode())
  }

  function DetectPuppeteerNode(p: Project): Option<Provision> {
    When(DepsContain(p.nodeDeps, ["puppeteer", "puppeteer-core"]), PuppeteerNode())
  }

  function DetectPlaywrightPython(p: Project): Option<Provision> {
    When(DepsContain(p.pythonDeps, ["playwright"]), PlaywrightPython())
  }

  function DetectSeleniumPython(p: Project): Option<Provision> {
    When(DepsContain(p.pythonDeps, ["selenium"]), SeleniumPython())
  }

  function DetectBrowserGo(p: Project): Option<Provision> {
    When(DepsContain(p.goDeps, ["go-rod/rod", "chromedp/chromedp"]), BrowserGo())
  }

  function DetectFfmpegNode(p: Project): Option<Provision> {
    When(DepsContain(p.nodeDeps, ["fluent-ffmpeg"]), FfmpegNode())
  }

  function DetectOpencvPython(p: Project): Option<Provision> {
    When(DepsContain(p.pythonDeps, ["opencv-python", "opencv-contrib-python"]), OpencvPython())
  }

  /** What the detectors answer, in their order. */
  function Detections(p: Project): seq<Option<Provision>> {
    [DetectPlaywrightNode(p), DetectPuppeteerNode(p), DetectPlaywrightPython(p), DetectSeleniumPython(p),
     DetectBrowserGo(p), DetectFfmpegNode(p), DetectOpencvPython(p)]
  }

  function MergeAll(found: seq<Option<Provision>>): Provision {
    if found == [] then NOTHING
    else
      var front := MergeAll(found[..|found| - 1]);
      var last := found[|found| - 1];
      if last.None? then front else Merge(front, last.value)
  }

  method MergeFound(found: seq<Option<Provision>>) returns (merged: Provision)
    ensures merged == MergeAll(found)
  {
    merged := NOTHING;
    for i := 0 to |found|
      invariant merged == MergeAll(found[..i])
    {
      assert found[..i + 1][..i] == found[..i];
      if found[i].Some? { merged := MergeInto(merged, found[i].value); }
    }
    assert found[..|found|] == found;
  }

  function Detected(project: Project): Provision {
    MergeAll(Detections(project))
  }

  method DetectProvision(project: Project) returns (merged: Provision)
    ensures merged == Detected(project)
  {
    merged := MergeFound(Detections(project));
  }

  // ----- What merging keeps -----

  datatype Field = Packages | Commands | Warnings | Markers

  function Items(p: Provision, field: Field): seq<string> {
    match field
    case Packages => p.aptPackages
    case Commands => p.postInstall
    case Warnings => p.warnings
    case Markers => p.skipIfContains
  }

  lemma MergeItems(p: Provision, q: Provision, field: Field, x: string)
    ensures x in Items(Merge(p, q), field) <==> x in Items(p, field) || x in Items(q, field)
  {
    AddNewFacts(p.aptPackages, q.aptPackages);
    AddNewFacts(p.skipIfContains, q.skipIfContains);
  }

  ghost predicate Asked(found: seq<Option<Provision>>, field: Field, x: string) {
    exists i :: 0 <= i < |found| && found[i].Some? && x in Items(found[i].value, field)
  }

  /** The merged provision asks for exactly what some detector asks for, in every field. */
  lemma {:induction false} MergeAllItems(found: seq<Option<Provision>>, field: Field, x: string)
    ensures x in Items(MergeAll(found), field) <==> Asked(found, field, x)
  {
    if found != [] {
      var n := |found| - 1;
      MergeAllItems(found[..n], field, x);
      AskedSnoc(found, field, x);
      if found[n].Some? { MergeItems(MergeAll(found[..n]), found[n].value, field, x); }
    }
  }

  lemma AskedSnoc(found: seq<Option<Provision>>, field: Field, x: string)
    requires found != []
    ensures var n := |found| - 1;
            Asked(found, field, x) <==> Asked(found[..n], field, x) || (found[n].Some? && x in Items(found[n].value, field))
  {
    var n := |found| - 1;
    assert forall i :: 0 <= i < n ==> found[..n][i] == found[i];
  }

  ghost predicate Floors(found: seq<Option<Provision>>, m: Option<nat>) {
    && (forall i :: 0 <= i < |found| && found[i].Some? && found[i].value.minMemory.Some? ==>
          m.Some? && found[i].value.minMemory.value <= m.value)
    && (m.Some? ==> exists i :: 0 <= i < |found| && found[i].Some? && found[i].value.minMemory == m)
  }

  /** Its memory floor is the largest one any detector sets, and no package is listed twice. */
  lemma {:induction false} MergeAllMemory(found: seq<Option<Provision>>)
    ensures Floors(found, MergeAll(found).minMemory)
    ensures Distinct(MergeAll(found).aptPackages)
  {
    if found != [] {
      var n := |found| - 1;
      MergeAllMemory(found[..n]);
      assert forall i :: 0 <= i < n ==> found[..n][i] == found[i];
      if found[n].Some? { AddNewFacts(MergeAll(found[..n]).aptPackages, found[n].value.aptPackages); }
    }
  }

  // ----- What every detected provision satisfies -----

  predicate AllOneLine(texts: seq<string>) {
    forall x :: x in texts ==> OneLine(x)
  }

  /** One of the commands contains one of the markers. */
  ghost predicate Marked(commands: seq<string>, markers: seq<string>) {
    exists c, m :: c in commands && m in markers && Contains(c, m)
  }

  /** Everything is single-line, and the commands, if any, carry a marker of their own. */
  ghost predicate WellFormed(p: Provision) {
    && AllOneLine(p.aptPackages) && AllOneLine(p.postInstall) && AllOneLine(p.skipIfContains)
    && (p.postInstall != [] ==> Marked(p.postInstall, p.skipIfContains))
  }

  lemma MergeWellFormed(p: Provision, q: Provision)
    requires WellFormed(p) && WellFormed(q)
    ensures WellFormed(Merge(p, q))
  {
    AddNewFacts(p.aptPackages, q.aptPackages);
    AddNewFacts(p.skipIfContains, q.skipIfContains);
    MarkedGrows(p, q);
  }

  lemma MarkedGrows(p: Provision, q: Provision)
    requires WellFormed(p) && WellFormed(q)
    ensures var m := Merge(p, q); m.postInstall != [] ==> Marked(m.postInstall, m.skipIfContains)
  {
    var m := Merge(p, q);
    AddNewFacts(p.skipIfContains, q.skipIfContains);
    if p.postInstall != [] {
      var c, k :| c in p.postInstall && k in p.skipIfContains && Contains(c, k);
      assert c in m.postInstall && k in m.skipIfContains;
    } else if q.postInstall != [] {
      var c, k :| c in q.postInstall && k in q.skipIfContains && Contains(c, k);
      assert c in m.postInstall && k in m.skipIfContains;
    }
  }

  lemma LiteralsOneLine()
    ensures OneLine(PUPPETEER) && OneLine(PLAYWRIGHT)
    ensures OneLine("npx ") && OneLine(" --with-deps chromium") && OneLine(" chrome")
  {
  }

  lemma BaseLibsOneLine()
    ensures AllOneLine(BASE_LIBS)
  {
  }

  lemma ToolkitLibsOneLine()
    ensures AllOneLine(TOOLKIT_LIBS)
  {
  }

  lemma SystemLibsOneLine()
    ensures AllOneLine(SYSTEM_LIBS)
  {
  }

  lemma WindowLibsOneLine()
    ensures AllOneLine(WINDOW_LIBS)
  {
  }

  lemma DrawingLibsOneLine()
    ensures AllOneLine(DRAWING_LIBS)
  {
  }

  lemma FivePartsOneLine(a: seq<string>, b: seq<string>, c: seq<string>, d: seq<string>, e: seq<string>)
    requires AllOneLine(a) && AllOneLine(b) && AllOneLine(c) && AllOneLine(d) && AllOneLine(e)
    ensures AllOneLine(a + b + c + d + e)
  {
  }

  lemma LibsOneLine()
    ensures AllOneLine(ChromiumLibs())
  {
    BaseLibsOneLine();
    ToolkitLibsOneLine();
    SystemLibsOneLine();
    WindowLibsOneLine();
    DrawingLibsOneLine();
    FivePartsOneLine(BASE_LIBS, TOOLKIT_LIBS, SYSTEM_LIBS, WINDOW_LIBS, DRAWING_LIBS);
  }

  lemma PackagesOneLine()
    ensures AllOneLine(["chromium", "chromium-driver"]) && AllOneLine(["chromium"])
    ensures AllOneLine(["ffmpeg"]) && AllOneLine(["libgl1", "libglib2.0-0"])
  {
  }

  lemma CommandMarked(head: string, marker: string, tail: string)
    requires OneLine(head) && OneLine(marker) && OneLine(tail)
    ensures OneLine(head + marker + tail) && Contains(head + marker + tail, marker)
  {
    ContainsMiddle(head, marker, tail);
  }

  lemma PlaywrightWellFormed()
    ensures WellFormed(PlaywrightNode()) && WellFormed(PlaywrightPython())
  {
    LiteralsOneLine();
    CommandMarked("npx ", PLAYWRIGHT, " --with-deps chromium");
    CommandMarked("", PLAYWRIGHT, " --with-deps chromium");
    assert "" + PLAYWRIGHT == PLAYWRIGHT;
  }

  lemma PuppeteerWellFormed()
    ensures WellFormed(PuppeteerNode())
  {
    LiteralsOneLine();
    LibsOneLine();
    CommandMarked("npx ", PUPPETEER, " chrome");
  }

  ghost predicate FoundWellFormed(f: Option<Provision>) {
    f.Some? ==> WellFormed(f.value)
  }

  ghost predicate AllFoundWellFormed(found: seq<Option<Provision>>) {
    forall i :: 0 <= i < |found| ==> FoundWellFormed(found[i])
  }

  lemma {:induction false} MergeAllWellFormed(found: seq<Option<Provision>>)
    requires AllFoundWellFormed(found)
    ensures WellFormed(MergeAll(found))
  {
    if found != [] {
      MergeAllWellFormed(found[..|found| - 1]);
      assert FoundWellFormed(found[|found| - 1]);
      if found[|found| - 1].Some? {
        MergeWellFormed(MergeAll(found[..|found| - 1]), found[|found| - 1].value);
      }
    }
  }

  lemma SevenWellFormed(a: Option<Provision>, b: Option<Provision>, c: Option<Provision>, d: Option<Provision>,
                        e: Option<Provision>, f: Option<Provision>, g: Option<Provision>)
    requires FoundWellFormed(a) && FoundWellFormed(b) && FoundWellFormed(c) && FoundWellFormed(d)
    requires FoundWellFormed(e) && FoundWellFormed(f) && FoundWellFormed(g)
    ensures WellFormed(MergeAll([a, b, c, d, e, f, g]))
  {
    MergeAllWellFormed([a, b, c, d, e, f, g]);
  }

  lemma AptDetectionsWellFormed(p: Project)
    ensures FoundWellFormed(DetectSeleniumPython(p)) && FoundWellFormed(DetectBrowserGo(p))
    ensures FoundWellFormed(DetectFfmpegNode(p)) && FoundWellFormed(DetectOpencvPython(p))
  {
    PackagesOneLine();
  }

  lemma WhenWellFormed(c: bool, p: Provision)
    requires WellFormed(p)
    ensures FoundWellFormed(When(c, p))
  {
  }

  lemma PuppeteerDetectionWellFormed(p: Project)
    ensures FoundWellFormed(DetectPuppeteerNode(p))
  {
    PuppeteerWellFormed();
    WhenWellFormed(DetectPuppeteerNode(p).Some?, PuppeteerNode());
  }

  lemma PlaywrightDetectionsWellFormed(p: Project)
    ensures FoundWellFormed(DetectPlaywrightNode(p)) && FoundWellFormed(DetectPlaywrightPython(p))
  {
    PlaywrightWellFormed();
  }

  /** Whatever the project, its provision is single-line and marks its own commands. */
  lemma DetectedWellFormed(project: Project)
    ensures WellFormed(Detected(project))
  {
    AptDetectionsWellFormed(project);
    PuppeteerDetectionWellFormed(project);
    PlaywrightDetectionsWellFormed(project);
    SevenWellFormed(DetectPlaywrightNode(project), DetectPuppeteerNode(project), DetectPlaywrightPython(project),
                    DetectSeleniumPython(project), DetectBrowserGo(project), DetectFfmpegNode(project),
                    DetectOpencvPython(project));
  }

  predicate NothingFound(found: seq<Option<Provision>>) {
    forall i :: 0 <= i < |found| ==> found[i].None?
  }

  /** Something to install. */
  predicate Installs(p: Provision) {
    p.aptPackages != [] || p.postInstall != []
  }

  lemma {:induction false} MergeAllInstalls(found: seq<Option<Provision>>)
    requires forall i :: 0 <= i < |found| && found[i].Some? ==> Installs(found[i].value)
    ensures NothingFound(found) ==> MergeAll(found) == NOTHING
    ensures !NothingFound(found) ==> Installs(MergeAll(found))
  {
    if found != [] {
      var front, last := MergeAll(found[..|found| - 1]), found[|found| - 1];
      MergeAllInstalls(found[..|found| - 1]);
      assert found == found[..|found| - 1] + [last];
      if last.Some? {
        AddNewFacts(front.aptPackages, last.value.aptPackages);
        if last.value.aptPackages != [] { assert last.value.aptPackages[0] in AddNew(front.aptPackages, last.value.aptPackages); }
      }
    }
  }

  lemma SevenInstall(a: Option<Provision>, b: Option<Provision>, c: Option<Provision>, d: Option<Provision>,
                     e: Option<Provision>, f: Option<Provision>, g: Option<Provision>)
    requires (a.Some? ==> Installs(a.value)) && (b.Some? ==> Installs(b.value)) && (c.Some? ==> Installs(c.value))
    requires (d.Some? ==> Installs(d.value)) && (e.Some? ==> Installs(e.value)) && (f.Some? ==> Installs(f.value))
    requires g.Some? ==> Installs(g.value)
    ensures NothingFound([a, b, c, d, e, f, g]) ==> MergeAll([a, b, c, d, e, f, g]) == NOTHING
    ensures !NothingFound([a, b, c, d, e, f, g]) ==> Installs(MergeAll([a, b, c, d, e, f, g]))
  {
    MergeAllInstalls([a, b, c, d, e, f, g]);
  }

  /** A project in which no detector finds anything gets the empty provision, any other something to install. */
  lemma DetectedInstalls(project: Project)
    ensures NothingFound(Detections(project)) ==> Detected(project) == NOTHING
    ensures !NothingFound(Detections(project)) ==> Installs(Detected(project)) && !Detected(project).IsEmpty()
  {
    SevenInstall(DetectPlaywrightNode(project), DetectPuppeteerNode(project), DetectPlaywrightPython(project),
                 DetectSeleniumPython(project), DetectBrowserGo(project), DetectFfmpegNode(project),
                 DetectOpencvPython(project));
  }
}
