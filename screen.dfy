/** Terminal output with colours abstracted away, and the screen parts both
    entry points print alike: the main-menu header, the memory screen, a GPU
    controller's block, a present battery's fields and the numbered-list
    layout. */
module Screen {
  import opened Utils
  import opened Telemetry

  /** The dash the screens print for a missing value. */
  const Dash: string := "\U{2014}"

  /** One item of terminal output. Clear is console.clear(), Pause(ms) is the
      setTimeout wait before what follows; every other constructor is one
      console.log line, its colour dropped. */
  datatype Line =
    | Clear
    | Pause(ms: nat)
    | Title(text: string)
    | Subtitle(text: string)
    | Divider
    | Notice(text: string)
    | Header(kind: string, number: int)
    | Field(name: string, value: string)
    | FieldPair(name: string, value: string, name2: string, value2: string)
    | Gauge(name: string, value: string, tier: Tier)
    | Raw(text: string)

  function YesNo(b: bool): string
  {
    if b then "Yes" else "No"
  }

  function PowerSource(acConnected: bool): string
  {
    if acConnected then "AC adapter \U{1F50C}" else "Battery \U{1F50B}"
  }

  const CpuTitle: string := "\U{1F9E0}  CPU INFORMATION"
  const RamTitle: string := "\U{1F4E6} MEMORY INFORMATION"
  const GpuTitle: string := "\U{1F3AE} GPU CONTROLLERS"
  const BatteryTitle: string := "\U{1F50B} BATTERY INFORMATION"
  const NoControllers: string := "No GPU controllers detected"
  const NoBattery: string := "\U{26A0}\U{FE0F}  No battery detected or data not available!"
  const Copied: string := "\n\U{2705} Config info successfully copied to clipboard!\n"
  const Farewell: string := "\nSee you next time \U{1F44B}\n"

  /** What main() prints before its prompt. */
  function MainMenuScreen(): (s: seq<Line>)
    ensures |s| == 4 && s[0] == Clear && s[|s| - 1] == Divider && NoHeader(s)
  {
    [Clear, Title("\U{1F9ED} SYSTEM INFORMATION"), Subtitle("Select a category to inspect"), Divider]
  }

  // ---------------------------------------------------------------------
  // Numbered lists: "#1" .. "#n", a divider between entries, none after the last

  /** Entry i of a list: its numbered header, its block, and a divider unless
      it is the last entry. */
  function Entry<T>(kind: string, items: seq<T>, block: T -> seq<Line>, i: nat): (e: seq<Line>)
    requires i < |items|
    ensures |e| > 0 && e[0] == Header(kind, i + 1)
  {
    [Header(kind, i + 1)] + block(items[i]) + (if i < |items| - 1 then [Divider] else [])
  }

  /** The lines of the first k entries. */
  function Entries<T>(kind: string, items: seq<T>, block: T -> seq<Line>, k: nat): (r: seq<Line>)
    requires k <= |items|
    ensures k > 0 ==> |r| > 0 && r[0] == Header(kind, 1)
  {
    if k == 0 then [] else Entries(kind, items, block, k - 1) + Entry(kind, items, block, k - 1)
  }

  /** The `for ... of items.entries()` loop of a list screen: after the
      lines already printed, each entry's header, its block, and a divider
      before the next entry. */
  method PrintEntries<T>(printed: seq<Line>, kind: string, items: seq<T>, block: T -> seq<Line>) returns (out: seq<Line>)
    ensures out == printed + Entries(kind, items, block, |items|)
  {
    out := printed;
    var index := 0;
    while index < |items|
      invariant 0 <= index <= |items|
      invariant out == printed + Entries(kind, items, block, index)
    {
      var entry := [Header(kind, index + 1)] + block(items[index]);
      if index < |items| - 1 {
        entry := entry + [Divider];
      }
      assert entry == Entry(kind, items, block, index);
      ConcatAssoc(printed, Entries(kind, items, block, index), entry);
      out := out + entry;
      index := index + 1;
    }
  }

  lemma ConcatAssoc<T>(a: seq<T>, b: seq<T>, c: seq<T>)
    ensures (a + b) + c == a + (b + c)
  {
  }

  /** The header lines among lines, in order. */
  function Headers(lines: seq<Line>): seq<Line>
  {
    if lines == [] then []
    else Headers(lines[..|lines| - 1]) + (if lines[|lines| - 1].Header? then [lines[|lines| - 1]] else [])
  }

  predicate NoHeader(lines: seq<Line>)
  {
    forall i :: 0 <= i < |lines| ==> !lines[i].Header?
  }

  lemma {:induction false} HeadersAppend(a: seq<Line>, b: seq<Line>)
    ensures Headers(a + b) == Headers(a) + Headers(b)
  {
    if b == [] {
      assert a + b == a;
    } else {
      assert (a + b)[..|a + b| - 1] == a + b[..|b| - 1];
      HeadersAppend(a, b[..|b| - 1]);
    }
  }

  lemma {:induction false} NoHeaderHeaders(lines: seq<Line>)
    requires NoHeader(lines)
    ensures Headers(lines) == []
  {
    if lines != [] {
      NoHeaderHeaders(lines[..|lines| - 1]);
    }
  }

  /** The only header of an entry is its own numbered one. */
  lemma EntryHeaders<T>(kind: string, items: seq<T>, block: T -> seq<Line>, i: nat)
    requires i < |items| && NoHeader(block(items[i]))
    ensures Headers(Entry(kind, items, block, i)) == [Header(kind, i + 1)]
  {
    var body := block(items[i]);
    var tail: seq<Line> := if i < |items| - 1 then [Divider] else [];
    NoHeaderHeaders(body);
    NoHeaderHeaders(tail);
    assert Headers([Header(kind, i + 1)]) == [Header(kind, i + 1)] by {
      assert [Header(kind, i + 1)][..0] == [];
    }
    HeadersAppend([Header(kind, i + 1)], body);
    HeadersAppend([Header(kind, i + 1)] + body, tail);
  }

  /** The headers of a list of k entries are numbered 1 .. k, in order. */
  lemma {:induction false} EntriesNumbered<T>(kind: string, items: seq<T>, block: T -> seq<Line>, k: nat)
    requires k <= |items|
    requires forall i :: 0 <= i < |items| ==> NoHeader(block(items[i]))
    ensures Headers(Entries(kind, items, block, k)) == seq(k, i => Header(kind, i + 1))
  {
    if k > 0 {
      EntriesNumbered(kind, items, block, k - 1);
      EntryHeaders(kind, items, block, k - 1);
      HeadersAppend(Entries(kind, items, block, k - 1), Entry(kind, items, block, k - 1));
      assert seq(k, i => Header(kind, i + 1)) == seq(k - 1, i => Header(kind, i + 1)) + [Header(kind, k)];
    }
  }

  /** How many dividers lines holds. */
  function Dividers(lines: seq<Line>): nat
  {
    if lines == [] then 0
    else Dividers(lines[..|lines| - 1]) + (if lines[|lines| - 1] == Divider then 1 else 0)
  }

  lemma {:induction false} DividersAppend(a: seq<Line>, b: seq<Line>)
    ensures Dividers(a + b) == Dividers(a) + Dividers(b)
  {
    if b == [] {
      assert a + b == a;
    } else {
      assert (a + b)[..|a + b| - 1] == a + b[..|b| - 1];
      DividersAppend(a, b[..|b| - 1]);
    }
  }

  lemma DividersSingle(x: Line)
    ensures Dividers([x]) == if x == Divider then 1 else 0
  {
    assert [x][..0] == [];
  }

  /** The dividers inside the blocks of the first k entries. */
  function BlockDividers<T>(items: seq<T>, block: T -> seq<Line>, k: nat): nat
    requires k <= |items|
  {
    if k == 0 then 0 else BlockDividers(items, block, k - 1) + Dividers(block(items[k - 1]))
  }

  /** An entry's dividers: its block's, and one more unless it is last. */
  lemma EntryDividers<T>(kind: string, items: seq<T>, block: T -> seq<Line>, i: nat)
    requires i < |items|
    ensures Dividers(Entry(kind, items, block, i)) == Dividers(block(items[i])) + (if i < |items| - 1 then 1 else 0)
  {
    var body := block(items[i]);
    var tail: seq<Line> := if i < |items| - 1 then [Divider] else [];
    DividersSingle(Header(kind, i + 1));
    DividersSingle(Divider);
    DividersAppend([Header(kind, i + 1)], body);
    DividersAppend([Header(kind, i + 1)] + body, tail);
  }

  /** Besides the dividers inside the blocks, k entries carry one separating
      divider each, except the last entry of the list: a list of n entries
      has exactly n - 1 separators. */
  lemma {:induction false} EntriesSeparators<T>(kind: string, items: seq<T>, block: T -> seq<Line>, k: nat)
    requires k <= |items|
    ensures Dividers(Entries(kind, items, block, k)) + (if 0 < k == |items| then 1 else 0)
            == BlockDividers(items, block, k) + k
  {
    if k > 0 {
      EntriesSeparators(kind, items, block, k - 1);
      EntryDividers(kind, items, block, k - 1);
      DividersAppend(Entries(kind, items, block, k - 1), Entry(kind, items, block, k - 1));
    }
  }

  /** A list screen: a header without numbered lines, the entries, one
      closing divider. Its headers are numbered 1 .. n. */
  lemma FramedListHeaders<T>(head: seq<Line>, kind: string, items: seq<T>, block: T -> seq<Line>)
    requires NoHeader(head)
    requires forall i :: 0 <= i < |items| ==> NoHeader(block(items[i]))
    ensures Headers(head + Entries(kind, items, block, |items|) + [Divider]) == seq(|items|, i => Header(kind, i + 1))
  {
    var list := Entries(kind, items, block, |items|);
    EntriesNumbered(kind, items, block, |items|);
    assert NoHeader([Divider]);
    NoHeaderHeaders(head);
    NoHeaderHeaders([Divider]);
    HeadersAppend(head, list);
    HeadersAppend(head + list, [Divider]);
  }

  /** A non-empty list screen has, besides its header's and its blocks'
      dividers, n - 1 separators and one closing divider: n in all. */
  lemma FramedListDividers<T>(head: seq<Line>, kind: string, items: seq<T>, block: T -> seq<Line>)
    requires |items| > 0
    ensures Dividers(head + Entries(kind, items, block, |items|) + [Divider])
            == Dividers(head) + BlockDividers(items, block, |items|) + |items|
  {
    var list := Entries(kind, items, block, |items|);
    EntriesSeparators(kind, items, block, |items|);
    DividersSingle(Divider);
    DividersAppend(head, list);
    DividersAppend(head + list, [Divider]);
  }

  /** A screen head: a clear, a title and one divider. */
  lemma HeadDividers(title: string)
    ensures Dividers([Clear, Title(title), Divider]) == 1
  {
    DividersSingle(Clear);
    DividersSingle(Title(title));
    DividersSingle(Divider);
    DividersAppend([Clear], [Title(title)]);
    assert [Clear] + [Title(title)] == [Clear, Title(title)];
    DividersAppend([Clear, Title(title)], [Divider]);
    assert [Clear, Title(title)] + [Divider] == [Clear, Title(title), Divider];
  }

  /** The last entry ends with its own block: no divider follows it. */
  lemma LastEntryUndivided<T>(kind: string, items: seq<T>, block: T -> seq<Line>)
    requires |items| > 0
    ensures Entries(kind, items, block, |items|)
            == Entries(kind, items, block, |items| - 1) + [Header(kind, |items|)] + block(items[|items| - 1])
  {
  }

  /** A list screen ends with the last entry's header and block, then the
      closing divider alone. */
  lemma FramedListEnding<T>(head: seq<Line>, kind: string, items: seq<T>, block: T -> seq<Line>)
    requires |items| > 0
    ensures head + Entries(kind, items, block, |items|) + [Divider]
            == head + Entries(kind, items, block, |items| - 1) + [Header(kind, |items|)] + block(items[|items| - 1]) + [Divider]
  {
    var n := |items|;
    LastEntryUndivided(kind, items, block);
    var earlier := Entries(kind, items, block, n - 1);
    var last := [Header(kind, n)] + block(items[n - 1]);
    ConcatAssoc(head, earlier, last);
    ConcatAssoc(head + earlier, [Header(kind, n)], block(items[n - 1]));
  }

  // ---------------------------------------------------------------------
  // Blocks both entry points share

  /** Does some field of lines carry this label? */
  predicate HasField(lines: seq<Line>, name: string)
  {
    exists i :: 0 <= i < |lines| && lines[i].Field? && lines[i].name == name
  }

  /** The labels of a controller's memory counters. */
  predicate IsMemoryLabel(name: string)
  {
    name == "Total:" || name == "Used:" || name == "Free:"
  }

  /** The part of a controller's block printed for every controller: its
      names, then VRAM. */
  function ControllerNames(c: Controller): (h: seq<Line>)
    ensures |h| == 8 && NoHeader(h)
    ensures h[6] == Field("VRAM:", if Present(c.vram) then ToGB(c.vram.value) else Dash)
    ensures forall l :: l in h && l.Field? ==> !IsMemoryLabel(l.name)
  {
    [Field("Vendor:", OrElse(c.vendor, Dash)),
     Field("Model:", OrElse(c.model, Dash)),
     Field("Bus:", OrElse(c.bus, Dash)),
     Field("Driver:", OrElse(c.driverVersion, Dash)),
     Divider,
     Subtitle("Memory"),
     Field("VRAM:", if Present(c.vram) then ToGB(c.vram.value) else Dash),
     Field("Dynamic VRAM:", YesNo(c.vramDynamic))]
  }

  /** One GPU controller: names, then memory. */
  function ControllerBlock(c: Controller): (b: seq<Line>)
    ensures NoHeader(b)
    ensures |b| == 8 || |b| == 11
    ensures |b| == 11 <==> Present(c.memoryTotal) && Present(c.memoryUsed) && Present(c.memoryFree)
  {
    var names := ControllerNames(c);
    if Present(c.memoryTotal) && Present(c.memoryUsed) && Present(c.memoryFree) then
      names + [
        Field("Total:", ToMB(c.memoryTotal.value)),
        Field("Used:", ToMB(c.memoryUsed.value)),
        Field("Free:", ToMB(c.memoryFree.value))]
    else
      names
  }

  /** VRAM shows the dash exactly when the counter is zero or missing. */
  lemma ControllerVram(c: Controller)
    ensures var b := ControllerBlock(c);
      b[6].Field? && b[6].name == "VRAM:" && (b[6].value == Dash <==> !Present(c.vram))
  {
    var b := ControllerBlock(c);
    assert b[6] == ControllerNames(c)[6];
    if Present(c.vram) {
      var shown := ToGB(c.vram.value);
      assert |shown| >= 7 > |Dash|;
    }
  }

  /** The Total/Used/Free lines of a controller are printed only when all
      three counters are truthy: one zero or missing counter drops all three. */
  lemma ControllerMemoryLines(c: Controller)
    ensures var b := ControllerBlock(c);
      (HasField(b, "Total:") <==> Present(c.memoryTotal) && Present(c.memoryUsed) && Present(c.memoryFree)) &&
      (HasField(b, "Used:") <==> HasField(b, "Total:")) &&
      (HasField(b, "Free:") <==> HasField(b, "Total:"))
  {
    var b := ControllerBlock(c);
    var names := ControllerNames(c);
    if |b| == 11 {
      assert b[8].name == "Total:" && b[9].name == "Used:" && b[10].name == "Free:";
    } else {
      assert b == names;
      forall i | 0 <= i < |b| && b[i].Field?
        ensures !IsMemoryLabel(b[i].name)
      {
        assert b[i] in names;
      }
    }
  }

  /** The numbered controller entries of a GPU screen. */
  function ControllerList(gpu: seq<Controller>): seq<Line>
  {
    Entries("GPU", gpu, ControllerBlock, |gpu|)
  }

  /** A size in GB, as the memory screen prints it. */
  predicate IsGbField(l: Line)
  {
    l.Field? && |l.value| >= 7 && l.value[|l.value| - 3..] == " GB"
  }

  function GbField(name: string, bytes: nat): (l: Line)
    ensures IsGbField(l)
  {
    Field(name, ToGB(bytes))
  }

  /** The memory screen: four sizes, then the three swap sizes, in GB. */
  function RamLines(mem: MemRecord): (r: seq<Line>)
    ensures |r| == 13
    ensures forall l :: l in r && l.Field? ==> IsGbField(l)
  {
    [Clear, Title(RamTitle), Divider,
     GbField("Total:", mem.total),
     GbField("Used:", mem.used),
     GbField("Free:", mem.free),
     GbField("Available:", mem.available),
     Divider,
     Subtitle("Swap"),
     GbField("Total:", mem.swaptotal),
     GbField("Used:", mem.swapused),
     GbField("Free:", mem.swapfree),
     Divider]
  }

  /** A present battery's fields, from its type to the closing divider. */
  function BatteryDetails(b: BatteryRecord): (d: seq<Line>)
    ensures |d| == 19 && NoHeader(d) && d[|d| - 1] == Divider
    ensures d[5] == Field("Power source:", PowerSource(b.acConnected))
    ensures d[6].Gauge? && d[6].tier == PercentColor(b.percent as real)
  {
    var unit := OrElse(b.capacityUnit, "");
    [Field("Type:", OrElse(b.batteryType, Dash)),
     Field("Model:", OrElse(b.model, Dash)),
     Field("Manufacturer:", OrElse(b.manufacturer, Dash)),
     Field("Serial:", OrElse(b.serial, Dash)),
     Divider,
     Field("Power source:", PowerSource(b.acConnected)),
     Gauge("Charge:", IntToString(b.percent) + "%", PercentColor(b.percent as real)),
     Field("Charging:", YesNo(b.isCharging)),
     Field("Time remaining:", MinutesToTime(b.timeRemaining)),
     Divider,
     Subtitle("Capacity"),
     Field("Current:", NullishElse(b.currentCapacity, Dash) + " " + unit),
     Field("Designed:", NullishElse(b.designedCapacity, Dash) + " " + unit),
     Field("Max:", NullishElse(b.maxCapacity, Dash) + " " + unit),
     Field("Cycles:", NullishElse(b.cycleCount, Dash)),
     Divider,
     Subtitle("Electrical"),
     Field("Voltage:", if Truthy(b.voltage) then Show(b.voltage) + " V" else Dash),
     Divider]
  }

  /** The capacities and the cycle count fall back only on null or
      undefined, so a zero is printed; the unit falls back on every falsy
      value. */
  lemma BatteryCountFallbacks(b: BatteryRecord)
    ensures var d := BatteryDetails(b);
      var unit := if Truthy(b.capacityUnit) then Show(b.capacityUnit) else "";
      d[11] == Field("Current:", (if Nullish(b.currentCapacity) then Dash else Show(b.currentCapacity)) + " " + unit) &&
      d[12] == Field("Designed:", (if Nullish(b.designedCapacity) then Dash else Show(b.designedCapacity)) + " " + unit) &&
      d[13] == Field("Max:", (if Nullish(b.maxCapacity) then Dash else Show(b.maxCapacity)) + " " + unit) &&
      d[14] == Field("Cycles:", if Nullish(b.cycleCount) then Dash else Show(b.cycleCount)) &&
      (b.cycleCount == Int(0) ==> d[14].value == "0") &&
      (b.currentCapacity == Int(0) ==> d[11].value == "0 " + unit)
  {
    assert NatToString(0) == "0";
  }

  /** The voltage falls back on every falsy value, zero included; the time
      remaining shows the helper's own placeholder, never the screens' dash. */
  lemma BatteryFallbacks(b: BatteryRecord)
    ensures var d := BatteryDetails(b);
      (d[17].value == Dash <==> !Truthy(b.voltage)) &&
      (b.voltage == Int(0) ==> d[17].value == Dash) &&
      (b.timeRemaining == Some(0) ==> d[8].value == MinutesPlaceholder != Dash)
  {
  }
}
