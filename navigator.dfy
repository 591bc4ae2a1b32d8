/** The live entry point: main() and configMenu() as a transition function
    over menu states, and the five category screens, each of which prints
    its record and then hands that record and its own tag to the config
    menu. The snapshot is fetched once, before the first menu, and every
    screen reads a slice of that one value. */
module Navigator {
  import opened Utils
  import opened Telemetry
  import opened Screen

  /** The menuType tag configMenu receives. */
  datatype Tag = Cpu | Ram | GpuControllers | Displays | Battery

  /** The value of the option picked at a prompt. The main menu offers the
      first six, the config menu the last two. */
  datatype Answer = CpuChoice | RamChoice | GpuChoice | DisplaysChoice | BatteryChoice | ExitChoice | CopyInfo | Back

  /** CategoryView is a screen being drawn (no prompt); MainMenu and
      ConfigMenu wait at a prompt; Halted is a screen that returned without
      calling anything, so no prompt follows; Exited is process.exit. */
  datatype State =
    | MainMenu
    | CategoryView(tag: Tag, data: JsData)
    | ConfigMenu(tag: Tag, data: JsData)
    | Halted
    | Exited(status: int)

  /** One step: where it leads, what it prints, and what it writes to the
      clipboard (the value that JSON.stringify serialises). */
  datatype Transition = Transition(next: State, output: seq<Line>, copied: Option<JsData>)

  /** Everything a run prints and copies, and where it ends. */
  datatype Session = Session(state: State, output: seq<Line>, clipboard: seq<JsData>)

  /** The data a tag's screen expects. */
  predicate Matches(tag: Tag, data: JsData)
  {
    match tag
    case Cpu => data.CpuData?
    case Ram => data.MemData?
    case GpuControllers => data.ControllersData?
    case Displays => data.DisplaysData?
    case Battery => data.BatteryData?
  }

  predicate WellTagged(s: State)
  {
    (s.CategoryView? || s.ConfigMenu?) ==> Matches(s.tag, s.data)
  }

  /** The part of the snapshot that belongs to each category. */
  function Slice(snap: Snapshot, tag: Tag): (d: JsData)
    ensures Matches(tag, d)
  {
    match tag
    case Cpu => CpuData(snap.cpu)
    case Ram => MemData(snap.mem)
    case GpuControllers => ControllersData(snap.graphics.controllers)
    case Displays => DisplaysData(snap.graphics.displays)
    case Battery => BatteryData(snap.battery)
  }

  /** A state shows nothing but the snapshot's own slice for its tag. */
  predicate FromSnapshot(snap: Snapshot, s: State)
  {
    (s.CategoryView? || s.ConfigMenu?) ==> s.data == Slice(snap, s.tag)
  }

  /** The category a main-menu answer selects, if any. */
  function ChoiceTag(a: Answer): Option<Tag>
  {
    match a
    case CpuChoice => Some(Cpu)
    case RamChoice => Some(Ram)
    case GpuChoice => Some(GpuControllers)
    case DisplaysChoice => Some(Displays)
    case BatteryChoice => Some(Battery)
    case _ => None
  }

  // ---------------------------------------------------------------------
  // main() and configMenu()

  /** exit(): farewell, a one-second wait, a cleared screen, status 0. */
  function ExitStep(): (t: Transition)
    ensures t.next == Exited(0) && t.copied == None
    ensures |t.output| > 1 && t.output[0] == Clear && t.output[1] == Notice(Farewell)
    ensures t.output[|t.output| - 1] == Clear && Pause(1000) in t.output
  {
    Transition(Exited(0), [Clear, Notice(Farewell), Pause(1000), Clear], None)
  }

  /** main() after its prompt: each category gets its slice of the snapshot;
      an answer matching no branch calls nothing, which halts. */
  function MainMenuStep(snap: Snapshot, a: Answer): (t: Transition)
    ensures t.copied == None && WellTagged(t.next)
    ensures t.next.CategoryView? <==> ChoiceTag(a).Some?
    ensures t.next.CategoryView? ==> t.next.tag == ChoiceTag(a).value
    ensures t.next == Halted <==> a == CopyInfo || a == Back
  {
    match a
    case CpuChoice => Transition(CategoryView(Cpu, CpuData(snap.cpu)), [], None)
    case RamChoice => Transition(CategoryView(Ram, MemData(snap.mem)), [], None)
    case GpuChoice => Transition(CategoryView(GpuControllers, ControllersData(snap.graphics.controllers)), [], None)
    case DisplaysChoice => Transition(CategoryView(Displays, DisplaysData(snap.graphics.displays)), [], None)
    case BatteryChoice => Transition(CategoryView(Battery, BatteryData(snap.battery)), [], None)
    case ExitChoice => ExitStep()
    case _ => Transition(Halted, [], None)
  }

  /** configMenu(configData, menuType) after its prompt: "copyInfo" copies
      configData, confirms, waits and redraws the same screen; any other
      answer goes back to main(). */
  function ConfigMenuStep(tag: Tag, data: JsData, a: Answer): (t: Transition)
    ensures t.copied.Some? <==> a == CopyInfo
    ensures a == CopyInfo ==> t.copied.value == data && t.next == CategoryView(tag, data)
    ensures a != CopyInfo ==> t.next == MainMenu && t.output == MainMenuScreen()
  {
    if a == CopyInfo then
      Transition(CategoryView(tag, data), [Clear, Notice(Copied), Pause(1500)], Some(data))
    else
      Transition(MainMenu, MainMenuScreen(), None)
  }

  /** The dispatch of main(): every category answer opens a view of exactly
      that category's slice of the snapshot; exit ends with status 0; the
      config menu's answers match no branch. */
  lemma MainMenuDispatch(snap: Snapshot, a: Answer)
    ensures var t := MainMenuStep(snap, a);
      t.copied == None &&
      (ChoiceTag(a).Some? ==> t == Transition(CategoryView(ChoiceTag(a).value, Slice(snap, ChoiceTag(a).value)), [], None)) &&
      (a == ExitChoice ==> t.next == Exited(0)) &&
      (a == CopyInfo || a == Back ==> t.next == Halted)
  {
  }

  // ---------------------------------------------------------------------
  // The screens

  /** cpuInfo: the model and the cache sizes fall back to "-" when falsy. */
  function CpuInfo(cpu: CpuRecord): (t: Transition)
    ensures |t.output| == 21 && t.output[0] == Clear && t.output[20] == Divider
  {
    Transition(ConfigMenu(Cpu, CpuData(cpu)), [
      Clear, Title(CpuTitle), Divider,
      Field("Manufacturer:", Show(cpu.manufacturer)),
      Field("Brand:", Show(cpu.brand)),
      Field("Vendor:", Show(cpu.vendor)),
      Field("Family:", Show(cpu.family)),
      Field("Model:", OrElse(cpu.model, "-")),
      Field("Stepping:", Show(cpu.stepping)),
      Field("Speed:", Show(cpu.speed) + " GHz"),
      Divider,
      Field("Cores (logical):", Show(cpu.cores)),
      Field("Cores (physical):", Show(cpu.physicalCores)),
      Field("Performance cores:", Show(cpu.performanceCores)),
      Field("Efficiency cores:", Show(cpu.efficiencyCores)),
      Field("Processors:", Show(cpu.processors)),
      Divider,
      Subtitle("Cache"),
      FieldPair("L1d:", OrElse(cpu.l1d, "-") + " KB", "L1i:", OrElse(cpu.l1i, "-") + " KB"),
      FieldPair("L2:", OrElse(cpu.l2, "-") + " KB", "L3:", OrElse(cpu.l3, "-") + " KB"),
      Divider], None)
  }

  /** A falsy model or cache size prints the ASCII "-", not the dash the
      other screens use; a truthy one prints itself. */
  lemma CpuFallbacks(cpu: CpuRecord)
    ensures var out := CpuInfo(cpu).output;
      out[7].name == "Model:" && out[18].name == "L1d:" && out[19].name == "L2:" &&
      (!Truthy(cpu.model) ==> out[7].value == "-" != Dash) &&
      (Truthy(cpu.model) ==> out[7].value == Show(cpu.model)) &&
      (!Truthy(cpu.l1d) ==> out[18].value == "- KB") &&
      (!Truthy(cpu.l1i) ==> out[18].value2 == "- KB") &&
      (!Truthy(cpu.l2) ==> out[19].value == "- KB") &&
      (!Truthy(cpu.l3) ==> out[19].value2 == "- KB")
  {
  }

  /** ramInfo: every size in GB with two decimals. */
  function RamInfo(mem: MemRecord): (t: Transition)
    ensures t.next == ConfigMenu(Ram, MemData(mem)) && t.copied == None
    ensures |t.output| == 13
    ensures forall l :: l in t.output && l.Field? ==> IsGbField(l)
  {
    Transition(ConfigMenu(Ram, MemData(mem)), RamLines(mem), None)
  }

  /** The spec of gpuControllersInfo: a header, then either the one
      "none detected" notice and no menu, or the numbered controllers, a
      closing divider and the config menu for this list. */
  function GpuControllersScreen(gpu: seq<Controller>): (t: Transition)
    ensures t.copied == None && |t.output| >= 4 && t.output[..3] == [Clear, Title(GpuTitle), Divider]
    ensures t.next == Halted <==> |gpu| == 0
    ensures |gpu| == 0 ==> |t.output| == 4
    ensures |gpu| > 0 ==> t.next == ConfigMenu(GpuControllers, ControllersData(gpu)) && t.output[|t.output| - 1] == Divider
  {
    var head := [Clear, Title(GpuTitle), Divider];
    if |gpu| == 0 then Transition(Halted, head + [Notice(NoControllers)], None)
    else Transition(ConfigMenu(GpuControllers, ControllersData(gpu)), head + ControllerList(gpu) + [Divider], None)
  }

  /** gpuControllersInfo: the header, then the notice and a return, or the
      controllers' loop, the closing divider and the config menu. */
  method GpuControllersInfo(gpu: seq<Controller>) returns (t: Transition)
    ensures t == GpuControllersScreen(gpu)
  {
    var out := [Clear, Title(GpuTitle), Divider];
    if |gpu| == 0 {
      out := out + [Notice(NoControllers)];
      return Transition(Halted, out, None);
    }
    out := PrintEntries(out, "GPU", gpu, ControllerBlock);
    out := out + [Divider];
    t := Transition(ConfigMenu(GpuControllers, ControllersData(gpu)), out, None);
  }

  /** "Native:" and "Current:": X×Y when both parts are truthy, else the dash. */
  function Resolution(x: JsValue, y: JsValue): (r: string)
    ensures r == Dash <==> !(Truthy(x) && Truthy(y))
  {
    if Truthy(x) && Truthy(y) then
      var r := Show(x) + "\U{00D7}" + Show(y);
      assert r[|Show(x)|] == '\U{00D7}';
      r
    else Dash
  }

  /** A truthy pair prints the first part, the multiplication sign, then the
      second part. */
  lemma ResolutionText(x: JsValue, y: JsValue)
    requires Truthy(x) && Truthy(y)
    ensures var r := Resolution(x, y);
      |r| == |Show(x)| + 1 + |Show(y)| &&
      r[..|Show(x)|] == Show(x) && r[|Show(x)|] == '\U{00D7}' && r[|Show(x)| + 1..] == Show(y)
  {
  }

  /** One display: names, general flags, resolutions. */
  function DisplayBlock(d: Display): (b: seq<Line>)
    ensures NoHeader(b) && |b| == 13
    ensures b[11].Field? && b[11].name == "Native:" && (b[11].value == Dash <==> !(Truthy(d.resolutionX) && Truthy(d.resolutionY)))
    ensures b[12].Field? && b[12].name == "Current:" && (b[12].value == Dash <==> !(Truthy(d.currentResX) && Truthy(d.currentResY)))
  {
    [Field("Vendor:", OrElse(d.vendor, Dash)),
     Field("Model:", OrElse(d.model, Dash)),
     Field("Serial:", OrElse(d.serial, Dash)),
     Field("Display ID:", OrElse(d.displayId, Dash)),
     Divider,
     Subtitle("General"),
     Field("Main:", YesNo(d.main)),
     Field("Built-in:", YesNo(d.builtin)),
     Field("Connection:", OrElse(d.connection, Dash)),
     Divider,
     Subtitle("Resolution"),
     Field("Native:", Resolution(d.resolutionX, d.resolutionY)),
     Field("Current:", Resolution(d.currentResX, d.currentResY))]
  }

  const DisplaysTitle: string := "\U{1F4FA} DISPLAYS"
  const NoDisplays: string := "No displays detected"

  /** The spec of displaysInfo, laid out like the GPU screen. */
  function DisplaysScreen(displays: seq<Display>): (t: Transition)
    ensures t.copied == None && |t.output| >= 4 && t.output[..3] == [Clear, Title(DisplaysTitle), Divider]
    ensures t.next == Halted <==> |displays| == 0
    ensures |displays| == 0 ==> |t.output| == 4
    ensures |displays| > 0 ==> t.next == ConfigMenu(Displays, DisplaysData(displays)) && t.output[|t.output| - 1] == Divider
  {
    var head := [Clear, Title(DisplaysTitle), Divider];
    if |displays| == 0 then Transition(Halted, head + [Notice(NoDisplays)], None)
    else Transition(ConfigMenu(Displays, DisplaysData(displays)),
                    head + Entries("Display", displays, DisplayBlock, |displays|) + [Divider], None)
  }

  /** displaysInfo: the header, then the notice and a return, or the
      displays' loop, the closing divider and the config menu. */
  method DisplaysInfo(displays: seq<Display>) returns (t: Transition)
    ensures t == DisplaysScreen(displays)
  {
    var out := [Clear, Title(DisplaysTitle), Divider];
    if |displays| == 0 {
      out := out + [Notice(NoDisplays)];
      return Transition(Halted, out, None);
    }
    out := PrintEntries(out, "Display", displays, DisplayBlock);
    out := out + [Divider];
    t := Transition(ConfigMenu(Displays, DisplaysData(displays)), out, None);
  }

  /** batteryInfo: without a battery only the warning, the power source and
      a divider are printed, and the config menu still follows. */
  function BatteryInfo(b: BatteryRecord): (t: Transition)
    ensures t.next == ConfigMenu(Battery, BatteryData(b))
    ensures !b.hasBattery ==> (|t.output| == 6 &&
      forall i :: 0 <= i < |t.output| && (t.output[i].Field? || t.output[i].Gauge?) ==> t.output[i].name == "Power source:")
  {
    var head := [Clear, Title(BatteryTitle), Divider];
    if !b.hasBattery then
      Transition(ConfigMenu(Battery, BatteryData(b)),
                 head + [Notice(NoBattery), Field("Power source:", PowerSource(b.acConnected)), Divider], None)
    else
      Transition(ConfigMenu(Battery, BatteryData(b)), head + BatteryDetails(b), None)
  }

  /** The screen a view draws, chosen by its tag as configMenu chooses it. */
  function Render(tag: Tag, data: JsData): (t: Transition)
    requires Matches(tag, data)
    ensures t.copied == None && |t.output| > 0 && t.output[0] == Clear
    ensures t.next == Halted || t.next == ConfigMenu(tag, data)
  {
    match tag
    case Cpu => CpuInfo(data.cpu)
    case Ram => RamInfo(data.mem)
    case GpuControllers => GpuControllersScreen(data.controllers)
    case Displays => DisplaysScreen(data.displays)
    case Battery => BatteryInfo(data.battery)
  }

  /** An empty controller or display list: the only screens that end
      without a menu. */
  predicate EmptyList(data: JsData)
  {
    (data.ControllersData? && |data.controllers| == 0) || (data.DisplaysData? && |data.displays| == 0)
  }

  /** Every screen ends in the config menu with its own data and its own
      tag, except an empty list, which prints one notice after its header
      and halts. Nothing is copied while drawing. */
  lemma RenderEndsInConfigMenu(tag: Tag, data: JsData)
    requires Matches(tag, data)
    ensures var t := Render(tag, data);
      t.copied == None &&
      t.next == (if EmptyList(data) then Halted else ConfigMenu(tag, data)) &&
      (EmptyList(data) ==> |t.output| == 4 && t.output[3].Notice?)
  {
  }

  /** The GPU screen numbers its controllers 1 .. n, in order. */
  lemma GpuScreenNumbering(gpu: seq<Controller>)
    requires |gpu| > 0
    ensures Headers(GpuControllersScreen(gpu).output) == seq(|gpu|, i => Header("GPU", i + 1))
  {
    var head := [Clear, Title(GpuTitle), Divider];
    assert NoHeader(head);
    FramedListHeaders(head, "GPU", gpu, ControllerBlock);
  }

  /** Besides the divider under the title and those inside the controllers'
      own blocks, the GPU screen has n - 1 separators and one closing
      divider. */
  lemma GpuScreenDividers(gpu: seq<Controller>)
    requires |gpu| > 0
    ensures Dividers(GpuControllersScreen(gpu).output) == 1 + BlockDividers(gpu, ControllerBlock, |gpu|) + (|gpu| - 1) + 1
  {
    var head := [Clear, Title(GpuTitle), Divider];
    HeadDividers(GpuTitle);
    FramedListDividers(head, "GPU", gpu, ControllerBlock);
  }

  /** The last controller's own lines are followed by the closing divider
      alone. */
  lemma GpuScreenEnding(gpu: seq<Controller>)
    requires |gpu| > 0
    ensures GpuControllersScreen(gpu).output ==
      [Clear, Title(GpuTitle), Divider] + Entries("GPU", gpu, ControllerBlock, |gpu| - 1)
      + [Header("GPU", |gpu|)] + ControllerBlock(gpu[|gpu| - 1]) + [Divider]
  {
    var head := [Clear, Title(GpuTitle), Divider];
    FramedListEnding(head, "GPU", gpu, ControllerBlock);
  }

  /** The displays screen numbers its displays 1 .. n, in order. */
  lemma DisplaysScreenNumbering(displays: seq<Display>)
    requires |displays| > 0
    ensures Headers(DisplaysScreen(displays).output) == seq(|displays|, i => Header("Display", i + 1))
  {
    var head := [Clear, Title(DisplaysTitle), Divider];
    assert NoHeader(head);
    FramedListHeaders(head, "Display", displays, DisplayBlock);
  }

  /** Besides the divider under the title and those inside the displays'
      own blocks, the displays screen has n - 1 separators and one closing
      divider. */
  lemma DisplaysScreenDividers(displays: seq<Display>)
    requires |displays| > 0
    ensures Dividers(DisplaysScreen(displays).output) == 1 + BlockDividers(displays, DisplayBlock, |displays|) + (|displays| - 1) + 1
  {
    var head := [Clear, Title(DisplaysTitle), Divider];
    HeadDividers(DisplaysTitle);
    FramedListDividers(head, "Display", displays, DisplayBlock);
  }

  // ---------------------------------------------------------------------
  // The session

  /** Completes a step that opened a view by drawing it. */
  function Settle(t: Transition): (r: Transition)
    requires WellTagged(t.next)
    ensures !r.next.CategoryView? && WellTagged(r.next)
  {
    if t.next.CategoryView? then
      var view := Render(t.next.tag, t.next.data);
      RenderEndsInConfigMenu(t.next.tag, t.next.data);
      Transition(view.next, t.output + view.output, t.copied)
    else t
  }

  /** One answer at a prompt, up to the next prompt or the end. A view is
      drawn without an answer; Halted and Exited ask nothing more. */
  function Step(snap: Snapshot, s: State, a: Answer): (t: Transition)
    requires WellTagged(s)
    ensures !t.next.CategoryView? && WellTagged(t.next)
  {
    match s
    case MainMenu => Settle(MainMenuStep(snap, a))
    case ConfigMenu(tag, data) => Settle(ConfigMenuStep(tag, data, a))
    case CategoryView(tag, data) => Settle(Transition(s, [], None))
    case _ => Transition(s, [], None)
  }

  /** "Back" (or any answer but "copy") in the config menu always returns
      to the main menu, whatever the category. */
  lemma BackReturnsToMainMenu(snap: Snapshot, tag: Tag, data: JsData, a: Answer)
    requires Matches(tag, data) && a != CopyInfo
    ensures Step(snap, ConfigMenu(tag, data), a) == Transition(MainMenu, MainMenuScreen(), None)
  {
  }

  /** "Copy" copies exactly the data on show, then redraws the same
      category with the same data: never the main menu. */
  lemma CopyRedrawsSameCategory(snap: Snapshot, tag: Tag, data: JsData)
    requires Matches(tag, data)
    ensures var t := Step(snap, ConfigMenu(tag, data), CopyInfo);
      t.copied == Some(data) &&
      t.next != MainMenu &&
      (!EmptyList(data) ==> t.next == ConfigMenu(tag, data)) &&
      t.output == [Clear, Notice(Copied), Pause(1500)] + Render(tag, data).output
  {
    RenderEndsInConfigMenu(tag, data);
  }

  /** A step never leaves the snapshot: every view shows the slice its tag
      names, and a copy copies the slice on show. */
  lemma StepKeepsSnapshot(snap: Snapshot, s: State, a: Answer)
    requires WellTagged(s) && FromSnapshot(snap, s)
    ensures var t := Step(snap, s, a);
      FromSnapshot(snap, t.next) &&
      (t.copied.Some? ==> s.ConfigMenu? && t.copied.value == Slice(snap, s.tag))
  {
    match s
    case MainMenu =>
      var m := MainMenuStep(snap, a);
      if m.next.CategoryView? {
        RenderEndsInConfigMenu(m.next.tag, m.next.data);
      }
    case ConfigMenu(tag, data) =>
      RenderEndsInConfigMenu(tag, data);
    case CategoryView(tag, data) =>
      RenderEndsInConfigMenu(tag, data);
    case _ =>
  }

  /** The answers given one after another, from state s. */
  function Run(snap: Snapshot, s: State, answers: seq<Answer>): (r: Session)
    requires WellTagged(s)
    decreases |answers|
    ensures |r.clipboard| <= |answers|
    ensures !r.state.CategoryView? || (answers == [] && r.state == s)
  {
    if answers == [] then Session(s, [], [])
    else
      var t := Step(snap, s, answers[0]);
      var rest := Run(snap, t.next, answers[1..]);
      Session(rest.state, t.output + rest.output,
              (if t.copied.Some? then [t.copied.value] else []) + rest.clipboard)
  }

  /** The program: the snapshot is fetched, main() draws its menu, then the
      answers drive it. */
  function Launch(snap: Snapshot, answers: seq<Answer>): (r: Session)
    ensures |r.output| >= 4 && r.output[..4] == MainMenuScreen() && |r.clipboard| <= |answers|
    ensures !r.state.CategoryView?
  {
    var run := Run(snap, MainMenu, answers);
    Session(run.state, MainMenuScreen() + run.output, run.clipboard)
  }

  /** Is d one of the snapshot's slices? */
  ghost predicate IsSlice(snap: Snapshot, d: JsData)
  {
    exists tag: Tag :: d == Slice(snap, tag)
  }

  /** However long a session runs, the snapshot is never fetched again:
      every state shows one of its slices, and everything copied is one. */
  lemma {:induction false} RunKeepsSnapshot(snap: Snapshot, s: State, answers: seq<Answer>)
    requires WellTagged(s) && FromSnapshot(snap, s)
    decreases |answers|
    ensures var r := Run(snap, s, answers);
      FromSnapshot(snap, r.state) &&
      forall i :: 0 <= i < |r.clipboard| ==> IsSlice(snap, r.clipboard[i])
  {
    if answers != [] {
      var t := Step(snap, s, answers[0]);
      StepKeepsSnapshot(snap, s, answers[0]);
      RunKeepsSnapshot(snap, t.next, answers[1..]);
      if t.copied.Some? {
        assert t.copied.value == Slice(snap, s.tag);
      }
    }
  }

  /** Choosing CPU and then "copy" puts the CPU record on the clipboard and
      comes back to the CPU screen's menu, not to the main menu. */
  lemma CpuCopyEndToEnd(snap: Snapshot)
    ensures var r := Launch(snap, [CpuChoice, CopyInfo]);
      r.clipboard == [CpuData(snap.cpu)] &&
      r.state == ConfigMenu(Cpu, CpuData(snap.cpu))
  {
    var t1 := Step(snap, MainMenu, CpuChoice);
    assert t1.next == ConfigMenu(Cpu, CpuData(snap.cpu));
    var t2 := Step(snap, t1.next, CopyInfo);
    assert t2.copied == Some(CpuData(snap.cpu));
    assert [CpuChoice, CopyInfo][1..] == [CopyInfo];
    assert [CopyInfo][1..] == [];
  }
}
