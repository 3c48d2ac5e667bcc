/** Booked memory: rendering byte counts and reading them back (`logger.rs`, `cli.rs`, `cgroup.rs`). */
module Booking {
  import opened Prelude
  import opened Text
  import opened Binary64

  const KIB: nat := 1024
  const MIB: nat := 0x10_0000
  const GIB: nat := 0x4000_0000
  const TIB: nat := 0x100_0000_0000

  /** No node has 1 PiB of memory, so a limit that large means "unlimited". */
  const IMPLAUSIBLE: nat := 0x4_0000_0000_0000

  /** `format_bytes_human`. */
  function FormatBytes(bytes: nat): string {
    if bytes >= GIB && bytes % GIB == 0 then Digits(bytes / GIB) + "GB"
    else if bytes >= MIB && bytes % MIB == 0 then Digits(bytes / MIB) + "MB"
    else Digits(bytes) + "b"
  }

  predicate IsNumeric(c: char) {
    IsDigit(c) || c == '.'
  }

  /** `s.chars().take_while(..)` over digits and dots. */
  function NumberPart(s: string): string {
    if s != "" && IsNumeric(s[0]) then [s[0]] + NumberPart(s[1..]) else ""
  }

  /** `s.chars().filter(..)` over ASCII letters, wherever they stand. */
  function UnitPart(s: string): string {
    if s == "" then ""
    else (if 'a' <= s[0] <= 'z' || 'A' <= s[0] <= 'Z' then [s[0]] else "") + UnitPart(s[1..])
  }

  function TenTo(k: nat): nat {
    if k == 0 then 1 else 10 * TenTo(k - 1)
  }

  lemma TenToPositive(k: nat)
    ensures TenTo(k) > 0
  {
  }

  /** `num_str.parse::<f64>()` for text made of digits and dots, correctly rounded. */
  function ParseFloat(s: string): Option<F64> {
    var parts := Split(s, '.');
    if !(forall p :: p in parts ==> AllDigits(p)) then None
    else if |parts| == 1 && parts[0] != "" then Some(Round(Value(parts[0]) as real))
    else if |parts| == 2 && (parts[0] != "" || parts[1] != "") then
      TenToPositive(|parts[1]|);
      Some(Round(Value(parts[0]) as real + Value(parts[1]) as real / TenTo(|parts[1]|) as real))
    else None
  }

  /** `k`, `m`, `g` or `t`, alone or followed by `b` or `ib`; anything else counts bytes. */
  function Multiplier(unit: string): nat {
    if unit == "" || !(unit[1..] == "" || unit[1..] == "b" || unit[1..] == "ib") then 1
    else if unit[0] == 'k' then KIB
    else if unit[0] == 'm' then MIB
    else if unit[0] == 'g' then GIB
    else if unit[0] == 't' then TIB
    else 1
  }

  /** Floating-point multiplication by a positive integer that is itself exact. */
  function Times(f: F64, k: nat): F64 {
    match f
    case Infinity => Infinity
    case Finite(v) => Round(Product(v, k as real))
  }

  function Product(a: real, b: real): real {
    a * b
  }

  /** `parse_mem_to_bytes`. */
  function ParseMem(text: string): nat {
    var s := Lower(Trim(text));
    if s == "" then 0 else
    var value := ParseFloat(NumberPart(s)).GetOr(Finite(0.0));
    AsU64(Times(value, Multiplier(UnitPart(s))))
  }

  /** `parse_mem_limit`: `None` when the limit means "unlimited". */
  function ParseMemLimit(content: string): (limit: Option<nat>)
    ensures limit.Some? ==> 0 < limit.value < IMPLAUSIBLE
  {
    var t := Trim(content);
    if t == "" || EqIgnoreCase(t, "max") then None else
    match ParseU64(t)
    case None => None
    case Some(v) => if v == 0 || v >= IMPLAUSIBLE then None else Some(v)
  }

  /** A limit printed as a number of bytes is taken as it stands, unless it is zero or no node could have so much. */
  lemma PrintedLimitIsRead(bytes: nat)
    ensures ParseMemLimit(Digits(bytes)) == if 0 < bytes < 1024 * TIB then Some(bytes) else None
  {
    var t := Digits(bytes);
    DigitIsNotSpace(t[0]);
    DigitIsNotSpace(t[|t| - 1]);
    TrimOfTrimmed(t);
    ValueOfDigits(bytes);
    assert !EqIgnoreCase(t, "max") by {
      assert IsDigit(Lower(t)[0]) && !IsDigit(Lower("max")[0]);
    }
  }

  // ---------------------------------------------------------------------
  // Reading a printed number with a unit
  // ---------------------------------------------------------------------

  lemma {:induction false} NumberPartStops(digits: string, unit: string)
    requires AllDigits(digits)
    requires unit != "" && !IsNumeric(unit[0])
    ensures NumberPart(digits + unit) == digits
  {
    var s := digits + unit;
    if digits != "" {
      NumberPartStops(digits[1..], unit);
      assert s[1..] == digits[1..] + unit;
      assert IsNumeric(s[0]);
    } else {
      assert s == unit;
    }
  }

  lemma {:induction false} UnitPartSkipsDigits(digits: string, unit: string)
    requires AllDigits(digits)
    ensures UnitPart(digits + unit) == UnitPart(unit)
  {
    var s := digits + unit;
    if digits != "" {
      UnitPartSkipsDigits(digits[1..], unit);
      assert s[1..] == digits[1..] + unit;
      assert IsDigit(s[0]);
    } else {
      assert s == unit;
    }
  }

  /** The units a quantity is written with; rendering uses three of them. */
  datatype Unit = Terabytes | Gigabytes | Megabytes | Kilobytes | Bytes {
    function Text(): string {
      match this
      case Terabytes => "TB"
      case Kilobytes => "KB"
      case Gigabytes => "GB"
      case Megabytes => "MB"
      case Bytes => "b"
    }

    function Size(): nat {
      match this
      case Terabytes => TIB
      case Kilobytes => KIB
      case Gigabytes => GIB
      case Megabytes => MIB
      case Bytes => 1
    }
  }

  lemma UnitReadsBack(unit: Unit)
    ensures Multiplier(UnitPart(Lower(unit.Text()))) == unit.Size()
    ensures Lower(unit.Text()) != "" && !IsNumeric(Lower(unit.Text())[0])
    ensures unit.Text() != "" && !IsSpace(unit.Text()[|unit.Text()| - 1])
  {
    match unit
    case Terabytes => LetterReadsBack("TB", "tb");
    case Gigabytes => LetterReadsBack("GB", "gb");
    case Megabytes => LetterReadsBack("MB", "mb");
    case Kilobytes => LetterReadsBack("KB", "kb");
    case Bytes =>
      assert Lower("b") == "b";
      assert UnitPart("b") == "b";
  }

  lemma LetterReadsBack(text: string, lower: string)
    requires |text| == 2 && |lower| == 2 && text[1] == 'B' && lower[1] == 'b'
    requires 'A' <= text[0] <= 'Z' && lower[0] as int == text[0] as int + 32
    ensures Lower(text) == lower && UnitPart(lower) == lower && lower[1..] == "b"
  {
    assert lower[1..] == "b";
    assert UnitPart(lower[1..]) == "b";
  }

  lemma LowerOfNumber(digits: string, unit: string)
    requires AllDigits(digits)
    ensures Lower(digits + unit) == digits + Lower(unit)
  {
    assert forall i :: 0 <= i < |digits| ==> IsDigit(digits[i]);
  }

  lemma ParseFloatOfDigits(n: nat)
    ensures ParseFloat(Digits(n)) == Some(Round(n as real))
  {
    var d := Digits(n);
    assert forall i :: 0 <= i < |d| ==> IsDigit(d[i]);
    SplitWithoutSeparator(d, '.');
    ValueOfDigits(n);
  }

  /** Reading a printed number with a unit is two roundings and a saturating truncation. */
  lemma ParseMemOfNumber(n: nat, unit: Unit)
    ensures ParseMem(Digits(n) + unit.Text()) == AsU64(Times(Round(n as real), unit.Size()))
  {
    var d, u := Digits(n), unit.Text();
    var text := d + u;
    UnitReadsBack(unit);
    DigitIsNotSpace(d[0]);
    assert text[0] == d[0] && text[|text| - 1] == u[|u| - 1];
    TrimOfTrimmed(text);
    LowerOfNumber(d, u);
    NumberPartStops(d, Lower(u));
    UnitPartSkipsDigits(d, Lower(u));
    ParseFloatOfDigits(n);
  }

  // ---------------------------------------------------------------------
  // The round trip
  // ---------------------------------------------------------------------

  lemma UnitIsDoubling(n: nat, unit: Unit) returns (k: nat)
    ensures Doubled(n, k) == n * unit.Size()
  {
    match unit
    case Terabytes =>
      k := 40;
      TenDoublings(n, 0);
      TenDoublings(n, 10);
      TenDoublings(n, 20);
      TenDoublings(n, 30);
    case Kilobytes =>
      k := 10;
      TenDoublings(n, 0);
    case Gigabytes =>
      k := 30;
      TenDoublings(n, 0);
      TenDoublings(n, 10);
      TenDoublings(n, 20);
    case Megabytes =>
      k := 20;
      TenDoublings(n, 0);
      TenDoublings(n, 10);
    case Bytes =>
      k := 0;
  }

  lemma FiveDoublings(n: nat, k: nat)
    ensures Doubled(n, k + 5) == 32 * Doubled(n, k)
  {
    assert Doubled(n, k + 1) == 2 * Doubled(n, k);
    assert Doubled(n, k + 2) == 2 * Doubled(n, k + 1);
    assert Doubled(n, k + 3) == 2 * Doubled(n, k + 2);
    assert Doubled(n, k + 4) == 2 * Doubled(n, k + 3);
  }

  lemma TenDoublings(n: nat, k: nat)
    ensures Doubled(n, k + 10) == 1024 * Doubled(n, k)
  {
    FiveDoublings(n, k);
    FiveDoublings(n, k + 5);
  }

  lemma ProductOfReals(a: nat, b: nat)
    ensures Product(a as real, b as real) == (a * b) as real
  {
  }

  /** Two numbers of the same unit compare as their counts do. */
  lemma ProductDiffers(k: nat, n: nat, u: nat)
    requires u > 0
    ensures k * u == n * u <==> k == n
  {
  }

  lemma RoundBelowTwice(n: nat, k: nat)
    requires 1 <= n && n <= U64_MAX && Round(n as real) == Finite(k as real)
    ensures k <= 2 * n
  {
    PowersGrow(64, 100);
    PowerConstants(64);
    var e := BinadeOf(n as real, 100);
    RoundInBinade(n as real, e);
    var x := n as real;
    var q := Scale(x, FRACTION_BITS - e);
    PowerConstants(0);
    ScaleCompose(1.0, e, FRACTION_BITS - e);
    PowersGrow(0, FRACTION_BITS);
    if Scale(1.0, e) < x {
      ScaleMonotone(Scale(1.0, e), x, FRACTION_BITS - e);
    }
    assert q >= 1.0;
    var m := Significand(x, e);
    assert m as real <= 2.0 * q;
    ScaleOfDouble(q, e - FRACTION_BITS);
    ScaleStep(q, e - FRACTION_BITS);
    ScaleCompose(x, FRACTION_BITS - e, e - FRACTION_BITS);
    if (m as real) < 2.0 * q {
      ScaleMonotone(m as real, 2.0 * q, e - FRACTION_BITS);
    }
  }

  /** When the product needs no rounding, only the truncation can still change anything. */
  lemma TimesIsExact(k: nat, u: nat, p: nat)
    requires Product(k as real, u as real) == p as real
    requires Fits53(p) && 1 <= p <= 2 * U64_MAX
    ensures AsU64(Times(Finite(k as real), u)) == Min(p, U64_MAX)
  {
    PowersGrow(64, 100);
    PowerConstants(100);
    var r := RoundOfInteger(p, 100);
  }

  lemma ScaledBound(k: nat, n: nat, u: nat, bound: nat)
    requires k <= 2 * n && n * u <= bound
    ensures k * u <= 2 * bound
  {
    assert k * u <= 2 * n * u;
  }

  lemma CountRounds(n: nat) returns (k: nat)
    requires 1 <= n <= U64_MAX
    ensures Round(n as real) == Finite(k as real) && 1 <= k <= 2 * n
    ensures Fits53(k) && (k == n <==> Fits53(n))
  {
    PowersGrow(64, 100);
    PowerConstants(64);
    k := RoundOfInteger(n, 100);
    RoundBelowTwice(n, k);
  }

  /** A unit is a power of two, so it changes nothing about significant bits. */
  lemma UnitKeepsBits(n: nat, unit: Unit, bytes: nat)
    requires bytes == n * unit.Size()
    ensures (Fits53(bytes) <==> Fits53(n)) && n <= bytes
  {
    var i := UnitIsDoubling(n, unit);
    DoubledIsScale(n, i);
  }

  lemma UnitsMultiply(n: nat, k: nat, u: nat, bytes: nat, p: nat)
    requires bytes == n * u && p == k * u && k <= 2 * n && bytes <= U64_MAX && u > 0
    ensures p <= 2 * U64_MAX && (p == bytes <==> k == n) && Product(k as real, u as real) == p as real
  {
    ScaledBound(k, n, u, U64_MAX);
    ProductOfReals(k, u);
    ProductDiffers(k, n, u);
  }

  /** What a printed quantity reads back as, for every count and unit that fits in a u64. */
  lemma QuantityReadsBack(n: nat, unit: Unit, bytes: nat, text: string) returns (k: nat, p: nat)
    requires 1 <= n <= bytes <= U64_MAX && bytes == n * unit.Size() && text == Digits(n) + unit.Text()
    ensures Round(n as real) == Finite(k as real) && p == k * unit.Size()
    ensures p == bytes <==> Fits53(bytes)
    ensures ParseMem(text) == Min(p, U64_MAX)
  {
    k := CountRounds(n);
    p := k * unit.Size();
    UnitsMultiply(n, k, unit.Size(), bytes, p);
    UnitKeepsBits(n, unit, bytes);
    UnitKeepsBits(k, unit, p);
    ParseMemOfNumber(n, unit);
    TimesIsExact(k, unit.Size(), p);
  }

  /** Each unit is 1024 of the next smaller one. */
  predicate IsLadder() {
    && Terabytes.Size() == 1024 * Gigabytes.Size() && Gigabytes.Size() == 1024 * Megabytes.Size()
    && Megabytes.Size() == 1024 * Kilobytes.Size() && Kilobytes.Size() == 1024 * Bytes.Size()
    && Bytes.Size() == 1
  }

  /** A written quantity is read as that many units, exactly when the bytes have 53 significant bits. */
  lemma WrittenQuantityIsRead(n: nat, unit: Unit)
    requires 1 <= n && n * unit.Size() < U64_MAX
    ensures IsLadder()
    ensures ParseMem(Digits(n) + unit.Text()) == n * unit.Size() <==> Fits53(n * unit.Size())
  {
    var bytes, text := n * unit.Size(), Digits(n) + unit.Text();
    UnitKeepsBits(n, unit, bytes);
    var k, p := QuantityReadsBack(n, unit, bytes, text);
    SaturatedRead(ParseMem(text), bytes, Fits53(bytes));
  }

  /** The largest u64 rounds up to 2^64, which the truncation then saturates back. */
  lemma LargestRoundsUp(k: nat)
    requires Round(U64_MAX as real) == Finite(k as real)
    ensures k > U64_MAX
  {
    var x := U64_MAX as real;
    PowerConstants(64);
    EightDoublings(1.0, 56);
    PowersGrow(56, 63);
    ScaleStep(1.0, 63);
    assert InBinade(x, 63);
    RoundInBinade(x, 63);
    ScaleStep(x, -11);
    ScaleStep(x, -10);
    ScaleStep(x, -9);
    ScaleStep(x, -8);
    ScaleStep(x, -7);
    ScaleStep(x, -6);
    ScaleStep(x, -5);
    ScaleStep(x, -4);
    ScaleStep(x, -3);
    ScaleStep(x, -2);
    ScaleStep(x, -1);
    assert Scale(x, 0) == x;
    assert Scale(x, -11) * 2048.0 == x;
    assert Significand(x, 63) == SIGNIFICANDS;
    ScaleCompose(1.0, 53, 11);
    PowerConstants(53);
    assert Scale(SIGNIFICANDS as real, 11) == Scale(1.0, 64);
  }

  lemma ZeroReadsBack()
    ensures ParseMem(FormatBytes(0)) == 0
  {
    assert FormatBytes(0) == Digits(0) + Bytes.Text();
    ParseMemOfNumber(0, Bytes);
    RoundOfZero();
    ProductOfReals(0, 1);
  }

  predicate WholeGigabytes(bytes: nat) {
    bytes >= GIB && bytes % GIB == 0
  }

  predicate WholeMegabytes(bytes: nat) {
    bytes >= MIB && bytes % MIB == 0
  }

  /** What a text reads back as, when it renders this many bytes. */
  ghost predicate ReadsBack(bytes: nat, text: string) {
    exists p: nat :: (p == bytes <==> Fits53(bytes)) && ParseMem(text) == Min(p, U64_MAX)
  }

  lemma GigabytesReadBack(bytes: nat, n: nat, text: string)
    requires bytes <= U64_MAX && 1 <= n && bytes == n * GIB && text == Digits(n) + "GB"
    ensures ReadsBack(bytes, text)
  {
    assert Gigabytes.Size() == GIB && Gigabytes.Text() == "GB";
    var k, p := QuantityReadsBack(n, Gigabytes, bytes, text);
  }

  lemma MegabytesReadBack(bytes: nat, n: nat, text: string)
    requires bytes <= U64_MAX && 1 <= n && bytes == n * MIB && text == Digits(n) + "MB"
    ensures ReadsBack(bytes, text)
  {
    assert Megabytes.Size() == MIB && Megabytes.Text() == "MB";
    var k, p := QuantityReadsBack(n, Megabytes, bytes, text);
  }

  lemma BytesReadBack(bytes: nat, text: string) returns (p: nat)
    requires 1 <= bytes <= U64_MAX && text == Digits(bytes) + "b"
    ensures (p == bytes <==> Fits53(bytes)) && ParseMem(text) == Min(p, U64_MAX)
    ensures Round(bytes as real) == Finite(p as real)
  {
    assert Bytes.Size() == 1 && Bytes.Text() == "b";
    var k;
    k, p := QuantityReadsBack(bytes, Bytes, bytes, text);
  }

  lemma FormatCases(bytes: nat)
    ensures WholeGigabytes(bytes) ==> bytes == bytes / GIB * GIB && FormatBytes(bytes) == Digits(bytes / GIB) + "GB"
    ensures !WholeGigabytes(bytes) && WholeMegabytes(bytes) ==>
              bytes == bytes / MIB * MIB && FormatBytes(bytes) == Digits(bytes / MIB) + "MB"
    ensures !WholeGigabytes(bytes) && !WholeMegabytes(bytes) ==> FormatBytes(bytes) == Digits(bytes) + "b"
  {
  }

  lemma FormatReadsBack(bytes: nat)
    requires 1 <= bytes <= U64_MAX
    ensures ReadsBack(bytes, FormatBytes(bytes))
  {
    FormatCases(bytes);
    if WholeGigabytes(bytes) {
      GigabytesReadBack(bytes, bytes / GIB, FormatBytes(bytes));
    } else if WholeMegabytes(bytes) {
      MegabytesReadBack(bytes, bytes / MIB, FormatBytes(bytes));
    } else {
      var p := BytesReadBack(bytes, FormatBytes(bytes));
    }
  }

  /** The one case in which rounding up is undone: the conversion back saturates. */
  lemma LargestReadsBack()
    ensures ParseMem(FormatBytes(U64_MAX)) == U64_MAX
  {
    FormatCases(U64_MAX);
    assert !WholeGigabytes(U64_MAX) && !WholeMegabytes(U64_MAX);
    var p := BytesReadBack(U64_MAX, FormatBytes(U64_MAX));
    LargestRoundsUp(p);
  }

  /**
   * A rendered byte count reads back exactly when it has at most 53 significant bits, and
   * in the one further case of the largest u64, where rounding up and saturation cancel.
   */
  lemma BookingRoundTrips(bytes: nat)
    requires bytes <= U64_MAX
    ensures ParseMem(FormatBytes(bytes)) == bytes <==> Fits53(bytes) || bytes == U64_MAX
  {
    if bytes == 0 {
      ZeroReadsBack();
    } else if bytes == U64_MAX {
      LargestReadsBack();
    } else {
      FormatReadsBack(bytes);
    }
  }

  lemma AroundPow53(bytes: nat)
    requires bytes <= SIGNIFICANDS
    ensures Fits53(bytes) && !Fits53(SIGNIFICANDS + 1)
  {
    assert SIGNIFICANDS / 2 < SIGNIFICANDS;
  }

  /** Hence every byte count up to 2^53 survives, and one more byte does not. */
  lemma BookingRoundTripsToPow53(bytes: nat)
    ensures bytes <= SIGNIFICANDS ==> ParseMem(FormatBytes(bytes)) == bytes
    ensures bytes == SIGNIFICANDS + 1 ==> ParseMem(FormatBytes(bytes)) != bytes
  {
    if bytes <= SIGNIFICANDS {
      AroundPow53(bytes);
      BookingRoundTrips(bytes);
    } else if bytes == SIGNIFICANDS + 1 {
      AroundPow53(0);
      BookingRoundTrips(bytes);
    }
  }

  /** The booking a logger records: bytes, display text, source, and whether it is per node. */
  datatype Booked = Booked(bytes: nat, display: string, source: string, perNode: bool)

  /** `resolve_booked_mem`, given the cgroup's limit file (if any) and the booking option. */
  function ResolveBookedMem(limitFile: Option<string>, option: string): Booked {
    var limit := if limitFile.Some? then ParseMemLimit(limitFile.value) else None;
    if limit.Some? then Booked(limit.value, FormatBytes(limit.value), "cgroup-limit", true)
    else if ParseMem(option) > 0 then Booked(ParseMem(option), Trim(option), "pbs-env", false)
    else Booked(0, "0b", "unknown", false)
  }

  /** Trimming twice is trimming once, so the normalised option reads as the option did. */
  lemma {:induction false} TrimEndTrims(s: string)
    ensures TrimEnd(s) == "" || !IsSpace(TrimEnd(s)[|TrimEnd(s)| - 1])
    ensures s != "" && !IsSpace(s[0]) ==> TrimEnd(s) != "" && TrimEnd(s)[0] == s[0]
  {
    if s != "" && IsSpace(s[|s| - 1]) {
      TrimEndTrims(s[..|s| - 1]);
    }
  }

  lemma {:induction false} TrimStartTrims(s: string)
    ensures TrimStart(s) == "" || !IsSpace(TrimStart(s)[0])
  {
    if s != "" && IsSpace(s[0]) {
      TrimStartTrims(s[1..]);
    }
  }

  lemma TrimTrims(s: string)
    ensures IsTrimmed(Trim(s)) && Trim(Trim(s)) == Trim(s)
  {
    TrimStartTrims(s);
    TrimEndTrims(TrimStart(s));
    TrimOfTrimmed(Trim(s));
  }

  /**
   * Wherever the booking came from, the text shown to the operator reads back as the
   * number of bytes recorded beside it, and only the cgroup's figure is marked per node.
   */
  lemma BookedTextAgrees(limitFile: Option<string>, option: string)
    ensures var b := ResolveBookedMem(limitFile, option);
            && ParseMem(b.display) == b.bytes
            && (b.perNode <==> limitFile.Some? && ParseMemLimit(limitFile.value).Some?)
            && b.bytes == (if b.perNode then ParseMemLimit(limitFile.value).value else ParseMem(option))
            && (b.bytes == 0 <==> b.source == "unknown")
  {
    var b := ResolveBookedMem(limitFile, option);
    if b.source == "cgroup-limit" {
      BookingRoundTripsToPow53(b.bytes);
    } else if b.source == "pbs-env" {
      TrimTrims(option);
    } else {
      BookingRoundTripsToPow53(0);
      assert FormatBytes(0) == "0b";
    }
  }

  /** `slurm_booked_mem_from`: megabytes per node, or per CPU times the CPUs on this node. */
  function SlurmBookedMem(env: map<string, string>): Option<string> {
    var perNode := Lookup(env, "SLURM_MEM_PER_NODE");
    if perNode.Some? && perNode.value > 0 then Some(Digits(perNode.value) + "MB") else
    var onNode := Lookup(env, "SLURM_CPUS_ON_NODE");
    var cpus := if onNode.Some? then onNode else Lookup(env, "SLURM_JOB_CPUS_PER_NODE");
    match (Lookup(env, "SLURM_MEM_PER_CPU"), cpus)
    case (Some(m), Some(c)) =>
      if m == 0 || c == 0 then None else Some(Digits(SatMul(m, c)) + "MB")
    case _ => None
  }

  function Lookup(env: map<string, string>, key: string): (r: Option<nat>)
    ensures r.Some? ==> r.value <= U64_MAX
  {
    if key in env then ParseU64(Trim(env[key])) else None
  }

  /** The CPUs on this node, by whichever variable can be read. */
  function CpusHere(env: map<string, string>): Option<nat> {
    if Lookup(env, "SLURM_CPUS_ON_NODE").Some? then Lookup(env, "SLURM_CPUS_ON_NODE")
    else Lookup(env, "SLURM_JOB_CPUS_PER_NODE")
  }

  /** The megabytes booked on this node, zero standing for none. */
  function BookedMegabytes(env: map<string, string>): nat {
    var perNode := Lookup(env, "SLURM_MEM_PER_NODE").GetOr(0);
    if perNode > 0 then perNode
    else NatProduct(Lookup(env, "SLURM_MEM_PER_CPU").GetOr(0), CpusHere(env).GetOr(0))
  }

  predicate Exports(env: map<string, string>, key: string, n: nat) {
    n <= U64_MAX && key in env && env[key] == Digits(n)
  }

  lemma LookupReads(env: map<string, string>, key: string, n: nat)
    requires Exports(env, key, n)
    ensures Lookup(env, key) == Some(n)
  {
    PaddedToNothing(n);
    ParseOfPadded(n, 0, U64_MAX);
    TrimOfTrimmed(Digits(n));
  }

  /** Memory exported per node is booked as it stands, whatever is exported per CPU. */
  lemma PerNodeIsBooked(env: map<string, string>, megabytes: nat)
    requires Exports(env, "SLURM_MEM_PER_NODE", megabytes) && megabytes > 0
    ensures BookedMegabytes(env) == megabytes
    ensures SlurmBookedMem(env) == Some(Digits(megabytes) + "MB")
  {
    LookupReads(env, "SLURM_MEM_PER_NODE", megabytes);
  }

  /**
   * Memory exported per CPU is booked once for every CPU on this node, the count on the node
   * being preferred to the job's count per node, unless memory per node is exported as well.
   */
  lemma PerCpuIsMultiplied(env: map<string, string>, megabytes: nat, cpus: nat)
    requires "SLURM_MEM_PER_NODE" !in env || Exports(env, "SLURM_MEM_PER_NODE", 0)
    requires Exports(env, "SLURM_MEM_PER_CPU", megabytes)
    requires if "SLURM_CPUS_ON_NODE" in env then Exports(env, "SLURM_CPUS_ON_NODE", cpus)
             else Exports(env, "SLURM_JOB_CPUS_PER_NODE", cpus)
    ensures BookedMegabytes(env) == NatProduct(megabytes, cpus)
    ensures SlurmBookedMem(env)
         == if megabytes == 0 || cpus == 0 then None else Some(Digits(Min(NatProduct(megabytes, cpus), U64_MAX)) + "MB")
  {
    if "SLURM_MEM_PER_NODE" in env {
      LookupReads(env, "SLURM_MEM_PER_NODE", 0);
    }
    LookupReads(env, "SLURM_MEM_PER_CPU", megabytes);
    if "SLURM_CPUS_ON_NODE" in env {
      LookupReads(env, "SLURM_CPUS_ON_NODE", cpus);
    } else {
      LookupReads(env, "SLURM_JOB_CPUS_PER_NODE", cpus);
    }
  }

  function NatProduct(a: nat, b: nat): nat {
    a * b
  }

  lemma ProductIsZero(a: nat, b: nat)
    ensures NatProduct(a, b) == 0 <==> a == 0 || b == 0
  {
  }

  lemma SlurmBookedText(env: map<string, string>)
    ensures SlurmBookedMem(env).None? <==> BookedMegabytes(env) == 0
    ensures 0 < BookedMegabytes(env) <= U64_MAX ==> SlurmBookedMem(env) == Some(Digits(BookedMegabytes(env)) + "MB")
  {
    ProductIsZero(Lookup(env, "SLURM_MEM_PER_CPU").GetOr(0), CpusHere(env).GetOr(0));
  }

  /**
   * In every environment, the megabytes that Slurm exported reach the logger's byte count
   * exactly when they have at most 53 significant bits as bytes, for every booking that a u64
   * can count in bytes; nothing is booked exactly when they come to zero.
   */
  lemma SlurmMemoryReachesTheLogger(env: map<string, string>)
    ensures SlurmBookedMem(env).None? <==> BookedMegabytes(env) == 0
    ensures 0 < BookedMegabytes(env) && BookedMegabytes(env) * MIB <= U64_MAX ==>
              && SlurmBookedMem(env).Some?
              && (ParseMem(SlurmBookedMem(env).value) == BookedMegabytes(env) * MIB
                  <==> Fits53(BookedMegabytes(env) * MIB))
  {
    var megabytes := BookedMegabytes(env);
    SlurmBookedText(env);
    if 0 < megabytes && megabytes * MIB <= U64_MAX {
      MegabytesSurvive(megabytes, megabytes * MIB, Digits(megabytes) + "MB");
    }
  }

  /** Below the limit, saturating leaves the comparison alone. */
  lemma SaturatedRead(parsed: nat, bytes: nat, fits: bool)
    requires bytes < U64_MAX && exists p: nat :: (p == bytes <==> fits) && parsed == Min(p, U64_MAX)
    ensures parsed == bytes <==> fits
  {
  }

  lemma MegabytesMissTheLimit(megabytes: nat)
    requires megabytes * MIB <= U64_MAX
    ensures megabytes * MIB < U64_MAX && megabytes <= U64_MAX
  {
  }

  lemma MegabytesSurvive(megabytes: nat, bytes: nat, text: string)
    requires 0 < megabytes && bytes == megabytes * MIB <= U64_MAX && text == Digits(megabytes) + "MB"
    ensures megabytes <= U64_MAX && (ParseMem(text) == bytes <==> Fits53(bytes))
  {
    MegabytesReadBack(bytes, megabytes, text);
    MegabytesMissTheLimit(megabytes);
    SaturatedRead(ParseMem(text), bytes, Fits53(bytes));
  }
}
