/** The snapshot of hardware facts fetched once at start-up, and the
    JavaScript value semantics the screens apply to its fields. The provider
    that fills the snapshot is outside the model: a snapshot is an input. */
module Telemetry {
  import opened Utils

  /** A field value as a screen sees it. Frac is a finite number that is not
      an integer, carried with the text JavaScript prints for it. */
  datatype JsValue =
    | Undefined
    | Null
    | Bool(b: bool)
    | Int(i: int)
    | Frac(text: string)
    | Str(s: string)

  /** JavaScript truthiness, the test behind `||` and the `?:` fallbacks. */
  predicate Truthy(v: JsValue)
  {
    match v
    case Undefined => false
    case Null => false
    case Bool(b) => b
    case Int(i) => i != 0
    case Frac(_) => true
    case Str(s) => s != ""
  }

  /** The test behind `??`: only null and undefined fall back. */
  predicate Nullish(v: JsValue)
  {
    v.Undefined? || v.Null?
  }

  /** The text `${v}` gives. */
  function Show(v: JsValue): string
  {
    match v
    case Undefined => "undefined"
    case Null => "null"
    case Bool(b) => if b then "true" else "false"
    case Int(i) => IntToString(i)
    case Frac(text) => text
    case Str(s) => s
  }

  /** `v || fallback`, shown. */
  function OrElse(v: JsValue, fallback: string): string
  {
    if Truthy(v) then Show(v) else fallback
  }

  /** `v ?? fallback`, shown. */
  function NullishElse(v: JsValue, fallback: string): string
  {
    if Nullish(v) then fallback else Show(v)
  }

  /** The two fallbacks part on zero and on the empty string: `||` replaces
      them, `??` prints them. */
  lemma FallbacksDifferOnFalsy(fallback: string)
    requires fallback != "0"
    ensures OrElse(Int(0), fallback) == fallback && NullishElse(Int(0), fallback) == "0"
    ensures OrElse(Str(""), fallback) == fallback && NullishElse(Str(""), fallback) == ""
  {
    assert NatToString(0) == "0";
  }

  /** A byte counter that is truthy: present and not zero. */
  predicate Present(n: Option<nat>)
  {
    n.Some? && n.value != 0
  }

  datatype CpuRecord = CpuRecord(
    manufacturer: JsValue, brand: JsValue, vendor: JsValue,
    family: JsValue, model: JsValue, stepping: JsValue, speed: JsValue,
    cores: JsValue, physicalCores: JsValue, performanceCores: JsValue,
    efficiencyCores: JsValue, processors: JsValue,
    l1d: JsValue, l1i: JsValue, l2: JsValue, l3: JsValue)

  /** Memory and swap sizes in bytes. */
  datatype MemRecord = MemRecord(
    total: nat, used: nat, free: nat, available: nat,
    swaptotal: nat, swapused: nat, swapfree: nat)

  datatype Controller = Controller(
    vendor: JsValue, model: JsValue, bus: JsValue, driverVersion: JsValue,
    vram: Option<nat>, vramDynamic: bool,
    memoryTotal: Option<nat>, memoryUsed: Option<nat>, memoryFree: Option<nat>)

  datatype Display = Display(
    vendor: JsValue, model: JsValue, serial: JsValue, displayId: JsValue,
    main: bool, builtin: bool, connection: JsValue,
    resolutionX: JsValue, resolutionY: JsValue,
    currentResX: JsValue, currentResY: JsValue)

  datatype GraphicsRecord = GraphicsRecord(controllers: seq<Controller>, displays: seq<Display>)

  datatype BatteryRecord = BatteryRecord(
    hasBattery: bool, acConnected: bool,
    batteryType: JsValue, model: JsValue, manufacturer: JsValue, serial: JsValue,
    percent: int, isCharging: bool, timeRemaining: Option<int>,
    capacityUnit: JsValue, currentCapacity: JsValue, designedCapacity: JsValue,
    maxCapacity: JsValue, cycleCount: JsValue, voltage: JsValue)

  /** Everything fetched at start-up; never changed and never fetched again. */
  datatype Snapshot = Snapshot(cpu: CpuRecord, mem: MemRecord, graphics: GraphicsRecord, battery: BatteryRecord)

  /** A value handed to a screen and to the config menu, which the source
      types as `any`; it is also what the clipboard receives, serialised. */
  datatype JsData =
    | CpuData(cpu: CpuRecord)
    | MemData(mem: MemRecord)
    | ControllersData(controllers: seq<Controller>)
    | DisplaysData(displays: seq<Display>)
    | BatteryData(battery: BatteryRecord)
    | GraphicsData(graphics: GraphicsRecord)
}
