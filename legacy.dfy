/** The older entry point at the top of the repository: the same menus with
    four categories (no displays screen), a GPU screen that receives the
    whole graphics record, a CPU screen without fallbacks, a battery screen
    that stops when there is no battery, and an exit without a pause. */
module LegacyNavigator {
  import opened Utils
  import opened Telemetry
  import opened Screen

  /** The menuType tag configMenu receives here. */
  datatype Tag = Cpu | Ram | GpuControllers | Battery

  /** The value of the option picked at a prompt: the main menu offers the
      first five, the config menu the last two. */
  datatype Answer = CpuChoice | RamChoice | GpuChoice | BatteryChoice | ExitChoice | CopyInfo | Back

  /** As in the live entry point: a view being drawn, two prompts, a screen
      that returned without calling anything, and process.exit. */
  datatype State =
    | MainMenu
    | CategoryView(tag: Tag, data: JsData)
    | ConfigMenu(tag: Tag, data: JsData)
    | Halted
    | Exited(status: int)

  datatype Transition = Transition(next: State, output: seq<Line>, copied: Option<JsData>)

  datatype Session = Session(state: State, output: seq<Line>, clipboard: seq<JsData>)

  /** The data a tag's screen expects: the GPU screen takes the whole
      graphics record, displays included. */
  predicate Matches(tag: Tag, data: JsData)
  {
    match tag
    case Cpu => data.CpuData?
    case Ram => data.MemData?
    case GpuControllers => data.GraphicsData?
    case Battery => data.BatteryData?
  }

  predicate WellTagged(s: State)
  {
    (s.CategoryView? || s.ConfigMenu?) ==> Matches(s.tag, s.data)
  }

  /** The part of the snapshot each category is handed. */
  function Slice(snap: Snapshot, tag: Tag): (d: JsData)
    ensures Matches(tag, d)
  {
    match tag
    case Cpu => CpuData(snap.cpu)
    case Ram => MemData(snap.mem)
    case GpuControllers => GraphicsData(snap.graphics)
    case Battery => BatteryData(snap.battery)
  }

  predicate FromSnapshot(snap: Snapshot, s: State)
  {
    (s.CategoryView? || s.ConfigMenu?) ==> s.data == Slice(snap, s.tag)
  }

  function ChoiceTag(a: Answer): Option<Tag>
  {
    match a
    case CpuChoice => Some(Cpu)
    case RamChoice => Some(Ram)
    case GpuChoice => Some(GpuControllers)
    case BatteryChoice => Some(Battery)
    case _ => None
  }

  // ---------------------------------------------------------------------
  // main() and configMenu()

  /** exit(): a cleared screen, the farewell, and process.exit(0) at once. */
  function ExitStep(): (t: Transition)
    ensures t.next == Exited(0) && t.copied == None
    ensures |t.output| > 1 && t.output[0] == Clear && t.output[1] == Notice(Farewell)
    ensures forall i :: 0 <= i < |t.output| ==> !t.output[i].Pause?
  {
    Transition(Exited(0), [Clear, Notice(Farewell)], None)
  }

  function MainMenuStep(snap: Snapshot, a: Answer): (t: Transition)
    ensures t.copied == None && WellTagged(t.next)
    ensures t.next.CategoryView? <==> ChoiceTag(a).Some?
    ensures t.next.CategoryView? ==> t.next.tag == ChoiceTag(a).value
    ensures t.next == Halted <==> a == CopyInfo || a == Back
  {
    match a
    case CpuChoice => Transition(CategoryView(Cpu, CpuData(snap.cpu)), [], None)
    case RamChoice => Transition(CategoryView(Ram, MemData(snap.mem)), [], None)
    case GpuChoice => Transition(CategoryView(GpuControllers, GraphicsData(snap.graphics)), [], None)
    case BatteryChoice => Transition(CategoryView(Battery, BatteryData(snap.battery)), [], None)
    case ExitChoice => ExitStep()
    case _ => Transition(Halted, [], None)
  }

  function ConfigMenuStep(tag: Tag, data: JsData, a: Answer): (t: Transition)
    ensures t.copied.Some? <==> a == CopyInfo
    ensures a == CopyInfo ==> t.copied.value == data && t.next == CategoryView(tag, data)
    ensures a != CopyInfo ==> t.next == MainMenu && t.output == MainMenuScreen()
  {
    if a == CopyInfo then
      Transition(CategoryView(tag, data), [Clear, Notice(Copied), Pause(1500)], Some(data))
    else
      Transition(MainMenu, MainMenuScreen(), None)
  }

  /** The dispatch of main(): a category answer opens its slice; exit ends
      at once with status 0 and no pause; other answers halt. */
  lemma MainMenuDispatch(snap: Snapshot, a: Answer)
    ensures var t := MainMenuStep(snap, a);
      t.copied == None &&
      (ChoiceTag(a).Some? ==> t == Transition(CategoryView(ChoiceTag(a).value, Slice(snap, ChoiceTag(a).value)), [], None)) &&
      (a == ExitChoice ==> t.next == Exited(0) && forall i :: 0 <= i < |t.output| ==> !t.output[i].Pause?) &&
      (a == CopyInfo || a == Back ==> t.next == Halted)
  {
  }

  // ---------------------------------------------------------------------
  // The screens

  /** cpuInfo: every field printed as it is, with no fallback. */
  function CpuInfo(cpu: CpuRecord): (t: Transition)
    ensures |t.output| == 21 && t.output[0] == Clear && t.output[20] == Divider
  {
    Transition(ConfigMenu(Cpu, CpuData(cpu)), [
      Clear, Title(CpuTitle), Divider,
      Field("Manufacturer:", Show(cpu.manufacturer)),
      Field("Brand:", Show(cpu.brand)),
      Field("Vendor:", Show(cpu.vendor)),
      Field("Family:", Show(cpu.family)),
      Field("Model:", Show(cpu.model)),
      Field("Stepping:", Show(cpu.stepping)),
      Field("Speed:", Show(cpu.speed) + " GHz"),
      Divider,
      Field("Cores (logical):", Show(cpu.cores)),
      Field("Cores (physical):", Show(cpu.physicalCores)),
      Field("Performance cores:", Show(cpu.performanceCores)),
      Field("Efficiency cores:", Show(cpu.efficiencyCores)),
      Field("Processors:", Show(cpu.processors)),
      Divider,
      Subtitle("Cache"),
      FieldPair("L1d:", Show(cpu.l1d) + " KB", "L1i:", Show(cpu.l1i) + " KB"),
      FieldPair("L2:", Show(cpu.l2) + " KB", "L3:", Show(cpu.l3) + " KB"),
      Divider], None)
  }

  /** Without fallbacks, a missing model prints "undefined" and a zero cache
      size prints "0 KB"; no field ever shows a dash. */
  lemma CpuWithoutFallbacks(cpu: CpuRecord)
    ensures var out := CpuInfo(cpu).output;
      out[7] == Field("Model:", Show(cpu.model)) &&
      (cpu.model == Undefined ==> out[7].value == "undefined") &&
      (cpu.l1d == Int(0) ==> out[18].value == "0 KB") &&
      (cpu.l2 == Null ==> out[19].value == "null KB")
  {
    assert NatToString(0) == "0";
  }

  function RamInfo(mem: MemRecord): (t: Transition)
    ensures |t.output| == 13 && t.next == ConfigMenu(Ram, MemData(mem))
    ensures forall l :: l in t.output && l.Field? ==> IsGbField(l)
  {
    Transition(ConfigMenu(Ram, MemData(mem)), RamLines(mem), None)
  }

  /** The spec of gpuControllersInfo(graphics): the controllers listed as in
      the live entry point, then the config menu for the whole record. */
  function GpuControllersScreen(g: GraphicsRecord): (t: Transition)
    ensures t.copied == None && |t.output| >= 4 && t.output[..3] == [Clear, Title(GpuTitle), Divider]
    ensures t.next == Halted <==> |g.controllers| == 0
    ensures |g.controllers| == 0 ==> |t.output| == 4
    ensures |g.controllers| > 0 ==> t.next == ConfigMenu(GpuControllers, GraphicsData(g)) && t.output[|t.output| - 1] == Divider
  {
    var head := [Clear, Title(GpuTitle), Divider];
    if |g.controllers| == 0 then Transition(Halted, head + [Notice(NoControllers)], None)
    else Transition(ConfigMenu(GpuControllers, GraphicsData(g)), head + ControllerList(g.controllers) + [Divider], None)
  }

  /** gpuControllersInfo: the loop runs over the record's controllers, and the
      whole record goes to the config menu. */
  method GpuControllersInfo(g: GraphicsRecord) returns (t: Transition)
    ensures t == GpuControllersScreen(g)
  {
    var out := [Clear, Title(GpuTitle), Divider];
    if |g.controllers| == 0 {
      out := out + [Notice(NoControllers)];
      return Transition(Halted, out, None);
    }
    out := PrintEntries(out, "GPU", g.controllers, ControllerBlock);
    out := out + [Divider];
    t := Transition(ConfigMenu(GpuControllers, GraphicsData(g)), out, None);
  }

  /** The GPU screen numbers its controllers 1 .. n; the displays of the
      record are handed on to the menu but never printed. */
  lemma GpuScreenNumbering(g: GraphicsRecord)
    requires |g.controllers| > 0
    ensures Headers(GpuControllersScreen(g).output) == seq(|g.controllers|, i => Header("GPU", i + 1))
    ensures GpuControllersScreen(g).output == GpuControllersScreen(GraphicsRecord(g.controllers, [])).output
  {
    var head := [Clear, Title(GpuTitle), Divider];
    assert NoHeader(head);
    FramedListHeaders(head, "GPU", g.controllers, ControllerBlock);
  }

  /** Besides the divider under the title and those inside the controllers'
      own blocks, the GPU screen has n - 1 separators and one closing
      divider. */
  lemma GpuScreenDividers(g: GraphicsRecord)
    requires |g.controllers| > 0
    ensures Dividers(GpuControllersScreen(g).output) == 1 + BlockDividers(g.controllers, ControllerBlock, |g.controllers|) + (|g.controllers| - 1) + 1
  {
    var head := [Clear, Title(GpuTitle), Divider];
    HeadDividers(GpuTitle);
    FramedListDividers(head, "GPU", g.controllers, ControllerBlock);
  }

  /** batteryInfo: without a battery, the warning alone on a cleared screen,
      then nothing (no title, no menu); with one, the title, the fields, the
      bare acConnected flag, and the config menu. */
  function BatteryInfo(b: BatteryRecord): (t: Transition)
    ensures !b.hasBattery ==> t == Transition(Halted, [Clear, Notice(NoBattery)], None)
    ensures b.hasBattery ==> (t.next == ConfigMenu(Battery, BatteryData(b)) &&
      |t.output| == 23 && t.output[22] == Raw(if b.acConnected then "true" else "false"))
  {
    if !b.hasBattery then
      Transition(Halted, [Clear, Notice(NoBattery)], None)
    else
      var flag := if b.acConnected then "true" else "false";
      Transition(ConfigMenu(Battery, BatteryData(b)),
                 [Clear, Title(BatteryTitle), Divider] + BatteryDetails(b) + [Raw(flag)], None)
  }

  function Render(tag: Tag, data: JsData): (t: Transition)
    requires Matches(tag, data)
    ensures t.copied == None && |t.output| > 0 && t.output[0] == Clear
    ensures t.next == Halted || t.next == ConfigMenu(tag, data)
  {
    match tag
    case Cpu => CpuInfo(data.cpu)
    case Ram => RamInfo(data.mem)
    case GpuControllers => GpuControllersScreen(data.graphics)
    case Battery => BatteryInfo(data.battery)
  }

  /** The screens that end without a menu: no controllers, no battery. */
  predicate EndsEarly(data: JsData)
  {
    (data.GraphicsData? && |data.graphics.controllers| == 0) || (data.BatteryData? && !data.battery.hasBattery)
  }

  /** Every screen ends in the config menu with its own data and tag, except
      the two early returns, which halt; nothing is copied while drawing. */
  lemma RenderEndsInConfigMenu(tag: Tag, data: JsData)
    requires Matches(tag, data)
    ensures var t := Render(tag, data);
      t.copied == None &&
      t.next == (if EndsEarly(data) then Halted else ConfigMenu(tag, data))
  {
  }

  // ---------------------------------------------------------------------
  // The session

  function Settle(t: Transition): (r: Transition)
    requires WellTagged(t.next)
    ensures !r.next.CategoryView? && WellTagged(r.next)
  {
    if t.next.CategoryView? then
      var view := Render(t.next.tag, t.next.data);
      RenderEndsInConfigMenu(t.next.tag, t.next.data);
      Transition(view.next, t.output + view.output, t.copied)
    else t
  }

  function Step(snap: Snapshot, s: State, a: Answer): (t: Transition)
    requires WellTagged(s)
    ensures !t.next.CategoryView? && WellTagged(t.next)
  {
    match s
    case MainMenu => Settle(MainMenuStep(snap, a))
    case ConfigMenu(tag, data) => Settle(ConfigMenuStep(tag, data, a))
    case CategoryView(tag, data) => Settle(Transition(s, [], None))
    case _ => Transition(s, [], None)
  }

  /** Any answer but "copy" in the config menu returns to the main menu. */
  lemma BackReturnsToMainMenu(snap: Snapshot, tag: Tag, data: JsData, a: Answer)
    requires Matches(tag, data) && a != CopyInfo
    ensures Step(snap, ConfigMenu(tag, data), a) == Transition(MainMenu, MainMenuScreen(), None)
  {
  }

  /** "Copy" copies the data on show and redraws the same category. */
  lemma CopyRedrawsSameCategory(snap: Snapshot, tag: Tag, data: JsData)
    requires Matches(tag, data)
    ensures var t := Step(snap, ConfigMenu(tag, data), CopyInfo);
      t.copied == Some(data) &&
      t.next != MainMenu &&
      (!EndsEarly(data) ==> t.next == ConfigMenu(tag, data)) &&
      t.output == [Clear, Notice(Copied), Pause(1500)] + Render(tag, data).output
  {
    RenderEndsInConfigMenu(tag, data);
  }

  /** Copying from the GPU screen puts the whole graphics record on the
      clipboard, the displays the screen never showed included. */
  lemma GpuCopyCarriesDisplays(snap: Snapshot)
    requires |snap.graphics.controllers| > 0
    ensures var t := Step(snap, Step(snap, MainMenu, GpuChoice).next, CopyInfo);
      t.copied == Some(GraphicsData(snap.graphics)) &&
      t.copied.value.graphics.displays == snap.graphics.displays
  {
  }

  lemma StepKeepsSnapshot(snap: Snapshot, s: State, a: Answer)
    requires WellTagged(s) && FromSnapshot(snap, s)
    ensures var t := Step(snap, s, a);
      FromSnapshot(snap, t.next) &&
      (t.copied.Some? ==> s.ConfigMenu? && t.copied.value == Slice(snap, s.tag))
  {
    match s
    case MainMenu =>
      var m := MainMenuStep(snap, a);
      if m.next.CategoryView? {
        RenderEndsInConfigMenu(m.next.tag, m.next.data);
      }
    case ConfigMenu(tag, data) =>
      RenderEndsInConfigMenu(tag, data);
    case CategoryView(tag, data) =>
      RenderEndsInConfigMenu(tag, data);
    case _ =>
  }

  function Run(snap: Snapshot, s: State, answers: seq<Answer>): (r: Session)
    requires WellTagged(s)
    decreases |answers|
    ensures |r.clipboard| <= |answers|
    ensures !r.state.CategoryView? || (answers == [] && r.state == s)
  {
    if answers == [] then Session(s, [], [])
    else
      var t := Step(snap, s, answers[0]);
      var rest := Run(snap, t.next, answers[1..]);
      Session(rest.state, t.output + rest.output,
              (if t.copied.Some? then [t.copied.value] else []) + rest.clipboard)
  }

  function Launch(snap: Snapshot, answers: seq<Answer>): (r: Session)
    ensures |r.output| >= 4 && r.output[..4] == MainMenuScreen() && |r.clipboard| <= |answers|
    ensures !r.state.CategoryView?
  {
    var run := Run(snap, MainMenu, answers);
    Session(run.state, MainMenuScreen() + run.output, run.clipboard)
  }

  ghost predicate IsSlice(snap: Snapshot, d: JsData)
  {
    exists tag: Tag :: d == Slice(snap, tag)
  }

  lemma {:induction false} RunKeepsSnapshot(snap: Snapshot, s: State, answers: seq<Answer>)
    requires WellTagged(s) && FromSnapshot(snap, s)
    decreases |answers|
    ensures var r := Run(snap, s, answers);
      FromSnapshot(snap, r.state) &&
      forall i :: 0 <= i < |r.clipboard| ==> IsSlice(snap, r.clipboard[i])
  {
    if answers != [] {
      var t := Step(snap, s, answers[0]);
      StepKeepsSnapshot(snap, s, answers[0]);
      RunKeepsSnapshot(snap, t.next, answers[1..]);
      if t.copied.Some? {
        assert t.copied.value == Slice(snap, s.tag);
      }
    }
  }

  /** Once halted, nothing more happens, whatever is answered. */
  lemma {:induction false} HaltedIsFinal(snap: Snapshot, answers: seq<Answer>)
    decreases |answers|
    ensures Run(snap, Halted, answers) == Session(Halted, [], [])
  {
    if answers != [] {
      HaltedIsFinal(snap, answers[1..]);
    }
  }

  /** On a machine without a battery, choosing Battery ends the session on
      the warning: no menu follows and later answers change nothing. */
  lemma NoBatteryEndsSession(snap: Snapshot, rest: seq<Answer>)
    requires !snap.battery.hasBattery
    ensures var r := Launch(snap, [BatteryChoice] + rest);
      r.state == Halted && r.clipboard == [] &&
      r.output == MainMenuScreen() + [Clear, Notice(NoBattery)]
  {
    var answers := [BatteryChoice] + rest;
    assert answers[0] == BatteryChoice && answers[1..] == rest;
    HaltedIsFinal(snap, rest);
  }
}
