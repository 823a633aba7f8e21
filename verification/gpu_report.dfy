/**
 * The `get_gpu_info` command: start from an empty record, and on Windows
 * overwrite its fields one by one from the JSON report a PowerShell script
 * prints.  The script run is an input here: either it could not be started,
 * or it exited with a status and an output that did or did not parse as
 * JSON.  The command never fails.
 */
module GpuReport {
  import opened Wrappers

  /** Rust's `u64`. */
  newtype u64 = x: int | 0 <= x < 0x1_0000_0000_0000_0000

  /** `serde_json::Number`: a non-negative integer, a negative integer, or a
      float.  Float payloads are kept only to be handed to the float cast. */
  datatype Number = PosInt(n: u64) | NegInt(i: int) | Float(x: real)

  /** `serde_json::Value`; an object maps each key to its last value. */
  datatype Json =
    | Null
    | Bool(b: bool)
    | Num(num: Number)
    | Str(s: string)
    | Array(items: seq<Json>)
    | Object(fields: map<string, Json>)

  datatype GpuInfo = GpuInfo(name: string, totalMb: u64, usedMb: u64)

  /** How the PowerShell run ended: not started, or exited with a status and
      a standard output that parsed to JSON (`Some`) or did not (`None`). */
  datatype ProcessOutput = SpawnFailed(error: string) | Exited(success: bool, stdout: Option<Json>)

  /** `GpuInfo::default()`. */
  const Default: GpuInfo := GpuInfo("", 0, 0)

  const BytesPerMiB: int := 1048576

  /** `value[key]` for a string key: the member of an object, `Null` when
      the key is absent or the value is not an object. */
  function Index(v: Json, key: string): (r: Json)
    ensures v.Object? && key in v.fields ==> r == v.fields[key]
    ensures !(v.Object? && key in v.fields) ==> r == Null
  {
    match v
    case Object(m) => if key in m then m[key] else Null
    case _ => Null
  }

  /** `as_str`. */
  function AsStr(v: Json): Option<string>
  {
    match v
    case Str(s) => Some(s)
    case _ => None
  }

  /** `as_u64`: only non-negative integers convert. */
  function AsU64(v: Json): Option<u64>
  {
    match v
    case Num(PosInt(n)) => Some(n)
    case _ => None
  }

  /** `as_f64`: every `serde_json` number converts (an integer to the nearest
      float); the float itself stays abstract. */
  function AsF64(v: Json): Option<Number>
  {
    match v
    case Num(n) => Some(n)
    case _ => None
  }

  /** `bytes / 1024 / 1024` in `u64` arithmetic: whole MiB, rounded down. */
  function ToMiB(bytes: u64): (mb: u64)
    ensures mb as int * BytesPerMiB <= bytes as int < (mb as int + 1) * BytesPerMiB
  {
    var kb := bytes / 1024;
    var mb := kb / 1024;
    assert kb as int * 1024 <= bytes as int < kb as int * 1024 + 1024;
    assert mb as int * 1024 <= kb as int < mb as int * 1024 + 1024;
    assert mb as int * BytesPerMiB == (mb as int * 1024) * 1024;
    assert (kb as int) * 1024 <= (mb as int * 1024 + 1023) * 1024;
    mb
  }

  /** The field-by-field overwrite of the default record from a parsed
      report.  `usedCast` is `used as u64` applied to the report's number
      once read as `f64`. */
  function FromReport(v: Json, usedCast: Number -> u64): (info: GpuInfo)
    ensures Index(v, "Name").Str? ==> info.name == Index(v, "Name").s
    ensures !Index(v, "Name").Str? ==> info.name == ""
    ensures Index(v, "Total").Num? && Index(v, "Total").num.PosInt? ==>
              var total := Index(v, "Total").num.n as int;
              info.totalMb as int * BytesPerMiB <= total < (info.totalMb as int + 1) * BytesPerMiB
    ensures !(Index(v, "Total").Num? && Index(v, "Total").num.PosInt?) ==> info.totalMb == 0
    ensures Index(v, "Used").Num? ==> info.usedMb == ToMiB(usedCast(Index(v, "Used").num))
    ensures !Index(v, "Used").Num? ==> info.usedMb == 0
  {
    var info := Default;
    var info := match AsStr(Index(v, "Name"))
      case Some(name) => info.(name := name)
      case None => info;
    var info := match AsU64(Index(v, "Total"))
      case Some(total) => info.(totalMb := ToMiB(total))
      case None => info;
    match AsF64(Index(v, "Used"))
    case Some(used) => info.(usedMb := ToMiB(usedCast(used)))
    case None =>
      match AsU64(Index(v, "Used"))
      case Some(used) => info.(usedMb := ToMiB(used))
      case None => info
  }

  /** `get_gpu_info`: always `Ok`; the report is read only on Windows, after
      a successful exit, when the output parsed. */
  function GetGpuInfo(onWindows: bool, output: ProcessOutput, usedCast: Number -> u64): (r: Result<GpuInfo>)
    ensures r.Ok?
    ensures onWindows && output.Exited? && output.success && output.stdout.Some? ==>
              r.value == FromReport(output.stdout.value, usedCast)
    ensures !(onWindows && output.Exited? && output.success && output.stdout.Some?) ==>
              r.value == GpuInfo("", 0, 0)
  {
    if !onWindows then Ok(Default)
    else
      match output
      case SpawnFailed(_) => Ok(Default)
      case Exited(success, stdout) =>
        if success && stdout.Some? then Ok(FromReport(stdout.value, usedCast)) else Ok(Default)
  }

  // ---------------------------------------------------------------------------
  // Properties of the extraction
  // ---------------------------------------------------------------------------

  /** The two divisions by 1024 are one division by 1 MiB. */
  lemma ToMiBIsOneDivision(bytes: u64)
    ensures ToMiB(bytes) as int == bytes as int / BytesPerMiB
  {
  }

  /** A value that is not an object has no fields: the record stays default. */
  lemma NonObjectGivesDefault(v: Json, usedCast: Number -> u64)
    requires !v.Object?
    ensures FromReport(v, usedCast) == Default
  {
  }

  /** A `Total` that is missing or not a non-negative integer changes nothing
      but `total_mb`, which stays 0. */
  lemma TotalIndependent(m: map<string, Json>, t: Json, usedCast: Number -> u64)
    requires !(t.Num? && t.num.PosInt?)
    ensures FromReport(Object(m["Total" := t]), usedCast) == FromReport(Object(m), usedCast).(totalMb := 0)
    ensures FromReport(Object(m - {"Total"}), usedCast) == FromReport(Object(m), usedCast).(totalMb := 0)
  {
  }

  /** A `Name` that is missing or not a string changes nothing but `name`,
      which stays empty. */
  lemma NameIndependent(m: map<string, Json>, n: Json, usedCast: Number -> u64)
    requires !n.Str?
    ensures FromReport(Object(m["Name" := n]), usedCast) == FromReport(Object(m), usedCast).(name := "")
    ensures FromReport(Object(m - {"Name"}), usedCast) == FromReport(Object(m), usedCast).(name := "")
  {
  }

  /** A `Used` that is missing or not a number changes nothing but
      `used_mb`, which stays 0. */
  lemma UsedIndependent(m: map<string, Json>, u: Json, usedCast: Number -> u64)
    requires !u.Num?
    ensures FromReport(Object(m["Used" := u]), usedCast) == FromReport(Object(m), usedCast).(usedMb := 0)
    ensures FromReport(Object(m - {"Used"}), usedCast) == FromReport(Object(m), usedCast).(usedMb := 0)
  {
  }

  /** The `as_u64` fallback for `Used` never decides anything: whenever it
      would succeed, `as_f64` has already succeeded. */
  lemma UsedIntegerBranchUnreachable(v: Json)
    ensures AsU64(v).Some? ==> AsF64(v).Some?
  {
  }
}
