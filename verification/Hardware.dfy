/**
 The hardware matcher. Sizes are compared as float64 quotients, so the model
 rounds every integer to a float64 (53 significant bits, ties to even) before it
 divides; division by a power of two is then exact and is done on reals.
 */
module Hardware {
  import opened Types

  const TWO_TO_53: nat := 0x20_0000_0000_0000
  const GIB: nat := 0x4000_0000
  const MIB_PER_GIB: nat := 1024

  /** Distance between neighbouring float64 values around `x`. */
  function Ulp(x: nat): (u: nat)
    ensures u >= 1
  {
    if x < TWO_TO_53 then 1 else 2 * Ulp(x / 2)
  }

  function RoundNat(x: nat): nat {
    RoundTo(x, Ulp(x))
  }

  /** The multiple of `u` nearest to `x`; of two equally near ones, the even multiple. */
  function RoundTo(x: nat, u: nat): nat
    requires u > 0
  {
    NearestMultiple(x, u) * u
  }

  function NearestMultiple(x: nat, u: nat): nat
    requires u > 0
  {
    var q, r := x / u, x % u;
    if 2 * r < u || (2 * r == u && q % 2 == 0) then q else q + 1
  }

  /** The Go conversion float64(x). */
  function Float(x: int): real {
    if x >= 0 then RoundNat(x) as real else -(RoundNat(-x) as real)
  }

  /** The Go conversion int(f): truncation towards zero. */
  function Trunc(f: real): int {
    if f >= 0.0 then f.Floor else -((-f).Floor)
  }

  /** "Exact match, or (by default) greater". */
  predicate Enough(actual: real, wanted: real, exact: bool) {
    actual == wanted || (!exact && wanted < actual)
  }

  predicate DiskIsBigEnough(disk: Disk, q: Quantity) {
    Enough(Float(disk.sizeBytes) / 1073741824.0, Float(q.value), q.exactMatch)
  }

  predicate TypeRequested(ssd: SsdReq) {
    ssd.exactMatch || ssd.ssd
  }

  predicate TypeMatches(disk: Disk, ssd: SsdReq) {
    disk.rotational != ssd.ssd
  }

  ghost predicate FirstFit(storage: seq<Disk>, fits: Disk -> bool, i: int) {
    0 <= i < |storage| && fits(storage[i]) && forall j | 0 <= j < i :: !fits(storage[j])
  }

  /** With a size request, the first disk of that size decides the type request as well. */
  ghost predicate DisksAccepted(storage: seq<Disk>, fits: Disk -> bool, sized: bool, ssd: SsdReq) {
    if sized then
      exists i :: FirstFit(storage, fits, i) && (TypeRequested(ssd) ==> TypeMatches(storage[i], ssd))
    else
      TypeRequested(ssd) ==> exists i :: 0 <= i < |storage| && TypeMatches(storage[i], ssd)
  }

  ghost predicate CpuAccepted(reqs: HardwareReqs, d: HardwareDetails) {
    && (reqs.arch == "" || d.arch == reqs.arch)
    && (reqs.cpuCount.value == 0 ||
        Enough(d.cpuCount as real, reqs.cpuCount.value as real, reqs.cpuCount.exactMatch))
    && (reqs.cpuMhz.value == 0 ||
        Enough(Trunc(d.clockMegahertz) as real, reqs.cpuMhz.value as real, reqs.cpuMhz.exactMatch))
  }

  ghost predicate MemoryAccepted(q: Quantity, ramMebibytes: int) {
    q.value == 0 || Enough(Float(ramMebibytes) / 1024.0, Float(q.value), q.exactMatch)
  }

  /** What the matcher decides. */
  ghost predicate HardwareAccepted(reqs: HardwareReqs, hardware: Option<HardwareDetails>) {
    reqs == NO_REQS ||
    (hardware.Some? &&
     var d := hardware.value;
     && CpuAccepted(reqs, d)
     && MemoryAccepted(reqs.memGb, d.ramMebibytes)
     && DisksAccepted(d.storage, disk => DiskIsBigEnough(disk, reqs.diskGb), reqs.diskGb.value != 0, reqs.ssd))
  }

  method MatchDisks(storage: seq<Disk>, diskGb: Quantity, ssd: SsdReq) returns (ok: bool)
    ensures ok <==> DisksAccepted(storage, disk => DiskIsBigEnough(disk, diskGb), diskGb.value != 0, ssd)
  {
    ghost var fits := disk => DiskIsBigEnough(disk, diskGb);
    var foundDisk := None;
    if diskGb.value != 0 {
      var i := 0;
      while i < |storage| && foundDisk.None?
        invariant 0 <= i <= |storage|
        invariant foundDisk.None? ==> forall j | 0 <= j < i :: !fits(storage[j])
        invariant foundDisk.Some? ==> i > 0 && FirstFit(storage, fits, i - 1) && foundDisk.value == storage[i - 1]
        decreases |storage| - i, foundDisk.None?
      {
        if DiskIsBigEnough(storage[i], diskGb) {
          foundDisk := Some(storage[i]);
        }
        i := i + 1;
      }
      if foundDisk.None? {
        return false;
      }
    }
    if TypeRequested(ssd) {
      var found := false;
      if foundDisk.Some? {
        found := TypeMatches(foundDisk.value, ssd);
      } else {
        for k := 0 to |storage|
          invariant found <==> exists j :: 0 <= j < k && TypeMatches(storage[j], ssd)
        {
          if TypeMatches(storage[k], ssd) {
            found := true;
          }
        }
      }
      return found;
    }
    return true;
  }

  /** The matcher's chain of early exits. */
  method VerifyHardwareMatch(reqs: HardwareReqs, hardware: Option<HardwareDetails>) returns (ok: bool)
    ensures ok <==> HardwareAccepted(reqs, hardware)
  {
    if reqs == NO_REQS {
      return true;
    }
    if hardware.None? {
      return false;
    }
    var d := hardware.value;
    if reqs.arch != "" && d.arch != reqs.arch {
      return false;
    }
    var count := reqs.cpuCount;
    if count.value != 0 && d.cpuCount != count.value {
      if count.exactMatch || count.value > d.cpuCount {
        return false;
      }
    }
    var mhz := reqs.cpuMhz;
    if mhz.value != 0 {
      var clockSpeed := Trunc(d.clockMegahertz);
      if mhz.value != clockSpeed && (mhz.exactMatch || mhz.value > clockSpeed) {
        return false;
      }
    }
    var mem := reqs.memGb;
    if mem.value != 0 {
      var wanted := Float(mem.value);
      var actual := Float(d.ramMebibytes) / 1024.0;
      if actual != wanted && (mem.exactMatch || wanted > actual) {
        return false;
      }
    }
    ok := MatchDisks(d.storage, reqs.diskGb, reqs.ssd);
  }

  // ---------------------------------------------------------------- against integers

  predicate IntegerEnough(actual: int, wanted: int, exact: bool) {
    actual == wanted || (!exact && wanted < actual)
  }

  predicate SameConverted(f: int -> real, size: int, wanted: int, exact: bool) {
    f(size) == f(wanted) && if exact then size != wanted else size < wanted
  }

  /** The size becomes the same float64 as the request, although it is another size or, by default, a smaller one. */
  predicate Misjudged(size: int, wanted: int, exact: bool) {
    SameConverted(Float, size, wanted, exact)
  }

  /** The matcher's decision over integers, given when a number of mebibytes and a disk are enough. */
  ghost predicate AcceptedBy(
    reqs: HardwareReqs, hardware: Option<HardwareDetails>, ram: int -> bool, fits: Disk -> bool) {
    reqs == NO_REQS ||
    (hardware.Some? &&
     var d := hardware.value;
     && (reqs.arch == "" || d.arch == reqs.arch)
     && (reqs.cpuCount.value == 0 || IntegerEnough(d.cpuCount, reqs.cpuCount.value, reqs.cpuCount.exactMatch))
     && (reqs.cpuMhz.value == 0 ||
         IntegerEnough(Trunc(d.clockMegahertz), reqs.cpuMhz.value, reqs.cpuMhz.exactMatch))
     && (reqs.memGb.value == 0 || ram(d.ramMebibytes))
     && DisksAccepted(d.storage, fits, reqs.diskGb.value != 0, reqs.ssd))
  }

  /** `actual` in small units against `q` in units of `unit`. */
  predicate IntegerFits(actual: int, q: Quantity, unit: nat) {
    IntegerEnough(actual, q.value * unit, q.exactMatch)
  }

  predicate IntegerFitsOrMisjudged(actual: int, q: Quantity, unit: nat) {
    IntegerFits(actual, q, unit) || Misjudged(actual, q.value * unit, q.exactMatch)
  }

  /** The same decision over integers: mebibytes against Gb * 1024 and bytes against Gb * 2^30. */
  ghost predicate IntegerAccepted(reqs: HardwareReqs, hardware: Option<HardwareDetails>) {
    AcceptedBy(reqs, hardware,
               ram => IntegerFits(ram, reqs.memGb, MIB_PER_GIB),
               (disk: Disk) => IntegerFits(disk.sizeBytes, reqs.diskGb, GIB))
  }

  function Pow2(k: nat): (p: nat)
    ensures p > 0
  {
    if k == 0 then 1 else 2 * Pow2(k - 1)
  }

  /** Doubling a number doubles its float64. */
  lemma RoundingDoubles(x: nat)
    ensures RoundNat(2 * x) == 2 * RoundNat(x)
  {
    if 2 * x >= TWO_TO_53 {
      assert 2 * x / 2 == x;
      var u := Ulp(x);
      assert Ulp(2 * x) == 2 * u;
      DoubleQuotient(x, u);
      assert NearestMultiple(2 * x, 2 * u) == NearestMultiple(x, u);
    }
  }

  lemma DoubleQuotient(x: nat, u: nat)
    requires u > 0
    ensures (2 * x) / (2 * u) == x / u && (2 * x) % (2 * u) == 2 * (x % u)
  {
    var q, r := x / u, x % u;
    assert x == q * u + r;
    assert 2 * x == q * (2 * u) + 2 * r;
    QuotientUnique(2 * x, 2 * u, q, 2 * r);
  }

  lemma QuotientUnique(x: nat, u: nat, q: nat, r: nat)
    requires u > 0 && x == q * u + r && r < u
    ensures x / u == q && x % u == r
  {
    var p, t := x / u, x % u;
    assert x == p * u + t;
    if p < q {
      Scale(p + 1, q, u);
    } else if q < p {
      Scale(q + 1, p, u);
    }
  }

  function Twice(x: int): int {
    2 * x
  }

  lemma FloatDoubles(x: int)
    ensures Float(Twice(x)) == 2.0 * Float(x)
  {
    RoundingDoubles(if x >= 0 then x else -x);
  }

  lemma TimesTwice(x: int, f: real, p: nat)
    ensures x * (2 * p) == Twice(x * p) && f * (2 * p) as real == 2.0 * (f * p as real)
  {
  }

  /** What the tests need of a conversion: it keeps the order and commutes with doubling. */
  ghost predicate Conversion(f: int -> real) {
    (forall x, y | x <= y :: f(x) <= f(y)) && forall x :: f(Twice(x)) == 2.0 * f(x)
  }

  lemma {:induction false} ScalesByPowers(f: int -> real, x: int, k: nat)
    requires Conversion(f)
    ensures f(x * Pow2(k)) == f(x) * Pow2(k) as real
  {
    if k > 0 {
      ScalesByPowers(f, x, k - 1);
      TimesTwice(x, f(x), Pow2(k - 1));
    }
  }

  lemma FloatIsMonotone(x: int, y: int)
    requires x <= y
    ensures Float(x) <= Float(y)
  {
    if x >= 0 {
      RoundingIsMonotone(x, y);
    } else if y < 0 {
      RoundingIsMonotone(-y, -x);
    }
  }

  lemma FloatIsConversion()
    ensures Conversion(Float)
  {
    forall x ensures Float(Twice(x)) == 2.0 * Float(x) {
      FloatDoubles(x);
    }
    forall x, y | x <= y ensures Float(x) <= Float(y) {
      FloatIsMonotone(x, y);
    }
  }

  lemma QuotientTest(a: real, b: real, p: real, exact: bool)
    requires p > 0.0
    ensures Enough(a / p, b, exact) <==> Enough(a, b * p, exact)
  {
    var c := a / p;
    assert c * p == a;
  }

  /** Testing the converted quotient is testing the integers, or the conversion takes both sizes to one number. */
  lemma QuotientTestExactly(f: int -> real, size: int, value: int, k: nat, exact: bool)
    requires Conversion(f)
    ensures
      var wanted := value * Pow2(k);
      Enough(f(size) / Pow2(k) as real, f(value), exact) <==>
      IntegerEnough(size, wanted, exact) || SameConverted(f, size, wanted, exact)
  {
    ScalesByPowers(f, value, k);
    QuotientTest(f(size), f(value), Pow2(k) as real, exact);
    var wanted := value * Pow2(k);
    assert size <= wanted ==> f(size) <= f(wanted);
    assert wanted <= size ==> f(wanted) <= f(size);
  }

  lemma Units()
    ensures Pow2(10) == MIB_PER_GIB && Pow2(30) == GIB
  {
    assert Pow2(10) == 1024;
    assert Pow2(20) == 1024 * 1024;
  }

  lemma GibTestExactly(f: int -> real, size: int, q: Quantity)
    requires Conversion(f)
    ensures Enough(f(size) / 1073741824.0, f(q.value), q.exactMatch) <==>
            IntegerFits(size, q, GIB) || SameConverted(f, size, q.value * GIB, q.exactMatch)
  {
    Units();
    QuotientTestExactly(f, size, q.value, 30, q.exactMatch);
  }

  lemma MibTestExactly(f: int -> real, size: int, q: Quantity)
    requires Conversion(f)
    ensures Enough(f(size) / 1024.0, f(q.value), q.exactMatch) <==>
            IntegerFits(size, q, MIB_PER_GIB) || SameConverted(f, size, q.value * MIB_PER_GIB, q.exactMatch)
  {
    Units();
    QuotientTestExactly(f, size, q.value, 10, q.exactMatch);
  }

  lemma MemoryTestExactly(ram: int, q: Quantity)
    ensures MemoryAccepted(q, ram) <==> q.value == 0 || IntegerFitsOrMisjudged(ram, q, MIB_PER_GIB)
  {
    FloatIsConversion();
    MibTestExactly(Float, ram, q);
  }

  lemma DiskTestExactly(disk: Disk, q: Quantity)
    ensures DiskIsBigEnough(disk, q) <==> IntegerFitsOrMisjudged(disk.sizeBytes, q, GIB)
  {
    FloatIsConversion();
    GibTestExactly(Float, disk.sizeBytes, q);
  }

  /** Memory and disk tests part from the integer tests on the misjudged sizes and on no others. */
  lemma TestsDisagreeExactly(q: Quantity, ram: int, disk: Disk)
    requires q.value != 0
    ensures (MemoryAccepted(q, ram) != IntegerFits(ram, q, MIB_PER_GIB)) <==>
            Misjudged(ram, q.value * MIB_PER_GIB, q.exactMatch)
    ensures (DiskIsBigEnough(disk, q) != IntegerFits(disk.sizeBytes, q, GIB)) <==>
            Misjudged(disk.sizeBytes, q.value * GIB, q.exactMatch)
  {
    MemoryTestExactly(ram, q);
    DiskTestExactly(disk, q);
  }

  lemma SameFits(storage: seq<Disk>, fits: Disk -> bool, fits': Disk -> bool, sized: bool, ssd: SsdReq)
    requires sized ==> forall disk | disk in storage :: fits(disk) == fits'(disk)
    ensures DisksAccepted(storage, fits, sized, ssd) ==> DisksAccepted(storage, fits', sized, ssd)
  {
  }

  /** The float64 matcher is the integer matcher that also accepts misjudged sizes. */
  lemma MatcherCountsMisjudgedSizes(reqs: HardwareReqs, hardware: Option<HardwareDetails>)
    ensures HardwareAccepted(reqs, hardware) <==>
            AcceptedBy(reqs, hardware,
                       ram => IntegerFitsOrMisjudged(ram, reqs.memGb, MIB_PER_GIB),
                       (disk: Disk) => IntegerFitsOrMisjudged(disk.sizeBytes, reqs.diskGb, GIB))
  {
    if hardware.Some? {
      var d := hardware.value;
      MemoryTestExactly(d.ramMebibytes, reqs.memGb);
      assert CpuAccepted(reqs, d) <==>
             && (reqs.arch == "" || d.arch == reqs.arch)
             && (reqs.cpuCount.value == 0 || IntegerEnough(d.cpuCount, reqs.cpuCount.value, reqs.cpuCount.exactMatch))
             && (reqs.cpuMhz.value == 0 ||
                 IntegerEnough(Trunc(d.clockMegahertz), reqs.cpuMhz.value, reqs.cpuMhz.exactMatch));
      var fits := disk => DiskIsBigEnough(disk, reqs.diskGb);
      var fits' := (disk: Disk) => IntegerFitsOrMisjudged(disk.sizeBytes, reqs.diskGb, GIB);
      forall disk | disk in d.storage ensures fits(disk) == fits'(disk) {
        DiskTestExactly(disk, reqs.diskGb);
      }
      SameFits(d.storage, fits, fits', reqs.diskGb.value != 0, reqs.ssd);
      SameFits(d.storage, fits', fits, reqs.diskGb.value != 0, reqs.ssd);
    }
  }

  /** No requested size is misjudged. */
  ghost predicate NothingMisjudged(reqs: HardwareReqs, d: HardwareDetails) {
    && (reqs.memGb.value != 0 ==>
          !Misjudged(d.ramMebibytes, reqs.memGb.value * MIB_PER_GIB, reqs.memGb.exactMatch))
    && (reqs.diskGb.value != 0 ==>
          forall disk | disk in d.storage ::
            !Misjudged(disk.sizeBytes, reqs.diskGb.value * GIB, reqs.diskGb.exactMatch))
  }

  lemma MatcherIsExactUnlessMisjudged(reqs: HardwareReqs, hardware: Option<HardwareDetails>)
    requires hardware.Some? ==> NothingMisjudged(reqs, hardware.value)
    ensures HardwareAccepted(reqs, hardware) <==> IntegerAccepted(reqs, hardware)
  {
    MatcherCountsMisjudgedSizes(reqs, hardware);
    if hardware.Some? {
      var fits := (disk: Disk) => IntegerFits(disk.sizeBytes, reqs.diskGb, GIB);
      var fits' := (disk: Disk) => IntegerFitsOrMisjudged(disk.sizeBytes, reqs.diskGb, GIB);
      SameFits(hardware.value.storage, fits, fits', reqs.diskGb.value != 0, reqs.ssd);
      SameFits(hardware.value.storage, fits', fits, reqs.diskGb.value != 0, reqs.ssd);
    }
  }

  predicate ExactInFloat(x: int) {
    x < TWO_TO_53 && -x < TWO_TO_53
  }

  lemma FloatIsExact(x: int)
    requires ExactInFloat(x)
    ensures Float(x) == x as real
  {
  }

  lemma CastProduct(x: int, p: int)
    ensures (x * p) as real == x as real * p as real
  {
  }

  lemma FixedPoint(f: int -> real, value: int, k: nat)
    requires Conversion(f) && f(value) == value as real
    ensures f(value * Pow2(k)) == (value * Pow2(k)) as real
  {
    ScalesByPowers(f, value, k);
    CastProduct(value, Pow2(k));
  }

  /** A request below 2^53 is converted without loss, also in small units. */
  lemma RequestIsFixedPoint(value: int)
    requires ExactInFloat(value)
    ensures Float(value * MIB_PER_GIB) == (value * MIB_PER_GIB) as real
    ensures Float(value * GIB) == (value * GIB) as real
  {
    FloatIsExact(value);
    Units();
    FloatIsConversion();
    FixedPoint(Float, value, 10);
    FixedPoint(Float, value, 30);
  }

  lemma SmallSizesAreNotMisjudged(size: int, value: int, exact: bool)
    requires ExactInFloat(size) && ExactInFloat(value)
    ensures !Misjudged(size, value * MIB_PER_GIB, exact) && !Misjudged(size, value * GIB, exact)
  {
    FloatIsExact(size);
    RequestIsFixedPoint(value);
  }

  ghost predicate SizesExactInFloat(reqs: HardwareReqs, d: HardwareDetails) {
    && ExactInFloat(reqs.memGb.value) && ExactInFloat(reqs.diskGb.value)
    && ExactInFloat(d.ramMebibytes) && forall disk | disk in d.storage :: ExactInFloat(disk.sizeBytes)
  }

  /** Below 2^53 the float64 matcher is the integer matcher. */
  lemma MatcherIsExactBelow2To53(reqs: HardwareReqs, hardware: Option<HardwareDetails>)
    requires hardware.Some? ==> SizesExactInFloat(reqs, hardware.value)
    ensures HardwareAccepted(reqs, hardware) <==> IntegerAccepted(reqs, hardware)
  {
    if hardware.Some? {
      var d := hardware.value;
      SmallSizesAreNotMisjudged(d.ramMebibytes, reqs.memGb.value, reqs.memGb.exactMatch);
      forall disk | disk in d.storage
        ensures !Misjudged(disk.sizeBytes, reqs.diskGb.value * GIB, reqs.diskGb.exactMatch)
      {
        SmallSizesAreNotMisjudged(disk.sizeBytes, reqs.diskGb.value, reqs.diskGb.exactMatch);
      }
    }
    MatcherIsExactUnlessMisjudged(reqs, hardware);
  }

  /** A misjudged size: one byte too many still counts as an exact 2^30 Gb. */
  lemma RoundingAcceptsWrongSize(disk: Disk, q: Quantity)
    requires disk.sizeBytes == 0x1000_0000_0000_0001 && q == Quantity(0x4000_0000, true)
    ensures Misjudged(disk.sizeBytes, q.value * GIB, q.exactMatch)
    ensures DiskIsBigEnough(disk, q) && !IntegerFits(disk.sizeBytes, q, GIB)
  {
    assert Ulp(0x1000_0000_0000_0000) == 256 && Ulp(0x1000_0000_0000_0001) == 256;
    assert RoundNat(0x1000_0000_0000_0001) == 0x1000_0000_0000_0000;
    DiskTestExactly(disk, q);
  }

  // ---------------------------------------------------------------- the disk rule

  /** A disk that meets both the size and the type request. */
  ghost predicate MeetsBoth(disk: Disk, fits: Disk -> bool, ssd: SsdReq) {
    fits(disk) && TypeMatches(disk, ssd)
  }

  /** The first disk of the right size has the wrong type, and a later disk would have met both requests. */
  ghost predicate ShadowedDisk(storage: seq<Disk>, fits: Disk -> bool, ssd: SsdReq) {
    exists i, j :: FirstFit(storage, fits, i) && !TypeMatches(storage[i], ssd) &&
                   i < j < |storage| && MeetsBoth(storage[j], fits, ssd)
  }

  lemma {:induction false} FirstFitExists(storage: seq<Disk>, fits: Disk -> bool, k: nat)
    requires k < |storage| && fits(storage[k])
    ensures exists i :: FirstFit(storage, fits, i) && i <= k
    decreases k
  {
    if j :| 0 <= j < k && fits(storage[j]) {
      FirstFitExists(storage, fits, j);
    } else {
      assert FirstFit(storage, fits, k);
    }
  }

  /**
   With both a size and a type request, the matcher accepts exactly when one disk
   meets both, except for a shadowed disk, which it rejects.
   */
  lemma SameDiskMeetsBoth(storage: seq<Disk>, fits: Disk -> bool, ssd: SsdReq)
    requires TypeRequested(ssd)
    ensures DisksAccepted(storage, fits, true, ssd) <==>
            (exists j :: 0 <= j < |storage| && MeetsBoth(storage[j], fits, ssd)) && !ShadowedDisk(storage, fits, ssd)
  {
    if DisksAccepted(storage, fits, true, ssd) {
      var i :| FirstFit(storage, fits, i) && TypeMatches(storage[i], ssd);
      assert MeetsBoth(storage[i], fits, ssd);
      forall i' | FirstFit(storage, fits, i') ensures i' == i {
      }
    }
    if j :| 0 <= j < |storage| && MeetsBoth(storage[j], fits, ssd) {
      FirstFitExists(storage, fits, j);
      var i :| FirstFit(storage, fits, i) && i <= j;
      if !TypeMatches(storage[i], ssd) {
        assert ShadowedDisk(storage, fits, ssd);
      }
    }
  }

  /** Two disks of the right size, the rotational one first: a request for an SSD is rejected. */
  lemma ShadowedDiskIsRejected(spinning: Disk, solid: Disk, q: Quantity, ssd: SsdReq)
    requires spinning == Disk(100 * GIB, true) && solid == Disk(100 * GIB, false)
    requires q == Quantity(100, false) && ssd == SsdReq(true, true)
    ensures
      var fits, storage := (disk: Disk) => DiskIsBigEnough(disk, q), [spinning, solid];
      && MeetsBoth(solid, fits, ssd) && ShadowedDisk(storage, fits, ssd)
      && !DisksAccepted(storage, fits, true, ssd) && DisksAccepted([solid, spinning], fits, true, ssd)
  {
    var fits, storage := (disk: Disk) => DiskIsBigEnough(disk, q), [spinning, solid];
    DiskTestExactly(spinning, q);
    DiskTestExactly(solid, q);
    assert FirstFit(storage, fits, 0) && MeetsBoth(storage[1], fits, ssd);
    assert FirstFit([solid, spinning], fits, 0);
    SameDiskMeetsBoth(storage, fits, ssd);
  }

  // ---------------------------------------------------------------- type requests without a size

  /** Some disk, wherever it is in the list, is rotational or not as asked. */
  ghost predicate HasDiskOfType(d: HardwareDetails, rotational: bool) {
    exists disk :: disk in d.storage && disk.rotational == rotational
  }

  /** With only a type request: an SSD is asked for by the flag, a rotational disk by an exact match without it. */
  lemma TypeRequestExactly(reqs: HardwareReqs, d: HardwareDetails)
    requires reqs == NO_REQS.(ssd := reqs.ssd)
    ensures HardwareAccepted(reqs, Some(d)) <==>
            && (reqs.ssd.ssd ==> HasDiskOfType(d, false))
            && (!reqs.ssd.ssd && reqs.ssd.exactMatch ==> HasDiskOfType(d, true))
  {
    if i :| 0 <= i < |d.storage| && TypeMatches(d.storage[i], reqs.ssd) {
      assert d.storage[i] in d.storage;
    }
    assert forall disk | disk in d.storage :: exists i :: 0 <= i < |d.storage| && d.storage[i] == disk;
  }

  /** Without a size request the order of the disks does not matter, and more disks never hurt. */
  lemma MoreDisksKeepMatch(reqs: HardwareReqs, d: HardwareDetails, storage: seq<Disk>)
    requires reqs.diskGb.value == 0 && HardwareAccepted(reqs, Some(d))
    requires forall disk | disk in d.storage :: disk in storage
    ensures HardwareAccepted(reqs, Some(d.(storage := storage)))
  {
    if reqs != NO_REQS && TypeRequested(reqs.ssd) {
      var i :| 0 <= i < |d.storage| && TypeMatches(d.storage[i], reqs.ssd);
      assert d.storage[i] in storage;
    }
  }

  lemma DiskOrderDoesNotMatter(reqs: HardwareReqs, d: HardwareDetails, storage: seq<Disk>)
    requires reqs.diskGb.value == 0 && multiset(storage) == multiset(d.storage)
    ensures HardwareAccepted(reqs, Some(d.(storage := storage))) <==> HardwareAccepted(reqs, Some(d))
  {
    forall disk ensures disk in storage <==> disk in d.storage {
      assert disk in storage <==> disk in multiset(storage);
      assert disk in d.storage <==> disk in multiset(d.storage);
    }
    if HardwareAccepted(reqs, Some(d)) {
      MoreDisksKeepMatch(reqs, d, storage);
    }
    if HardwareAccepted(reqs, Some(d.(storage := storage))) {
      MoreDisksKeepMatch(reqs, d.(storage := storage), d.storage);
      assert d.(storage := storage).(storage := d.storage) == d;
    }
  }

  // ---------------------------------------------------------------- verdicts in numbers

  const HOST_DETAILS := HardwareDetails("x86_64", 8, 2100.75, 16384, [Disk(100 * GIB, true), Disk(50 * GIB, false)])

  /** Type requests on one rotational disk and one SSD, in either order, and on each alone. */
  lemma TypeVerdicts(d: HardwareDetails, spinning: Disk, solid: Disk)
    requires d == HOST_DETAILS && spinning == Disk(100 * GIB, true) && solid == Disk(50 * GIB, false)
    ensures HardwareAccepted(NO_REQS.(ssd := SsdReq(true, false)), Some(d))
    ensures HardwareAccepted(NO_REQS.(ssd := SsdReq(true, false)), Some(d.(storage := [solid, spinning])))
    ensures !HardwareAccepted(NO_REQS.(ssd := SsdReq(true, false)), Some(d.(storage := [spinning])))
    ensures HardwareAccepted(NO_REQS.(ssd := SsdReq(false, true)), Some(d.(storage := [solid, spinning])))
    ensures !HardwareAccepted(NO_REQS.(ssd := SsdReq(false, true)), Some(d.(storage := [solid])))
  {
    assert solid in d.storage && spinning in d.storage;
    TypeRequestExactly(NO_REQS.(ssd := SsdReq(true, false)), d);
    var mixed, e, f := [solid, spinning], d.(storage := [spinning]), d.(storage := [solid]);
    assert solid in mixed && spinning in mixed;
    TypeRequestExactly(NO_REQS.(ssd := SsdReq(true, false)), d.(storage := mixed));
    TypeRequestExactly(NO_REQS.(ssd := SsdReq(false, true)), d.(storage := mixed));
    TypeRequestExactly(NO_REQS.(ssd := SsdReq(true, false)), e);
    TypeRequestExactly(NO_REQS.(ssd := SsdReq(false, true)), f);
  }

  /** Architecture and core count on a host with 8 cores. */
  lemma CpuVerdicts(d: HardwareDetails)
    requires d == HOST_DETAILS
    ensures HardwareAccepted(NO_REQS.(arch := "x86_64"), Some(d))
    ensures !HardwareAccepted(NO_REQS.(arch := "aarch64"), Some(d))
    ensures HardwareAccepted(NO_REQS.(cpuCount := Quantity(8, true)), Some(d))
    ensures HardwareAccepted(NO_REQS.(cpuCount := Quantity(4, false)), Some(d))
    ensures !HardwareAccepted(NO_REQS.(cpuCount := Quantity(4, true)), Some(d))
    ensures !HardwareAccepted(NO_REQS.(cpuCount := Quantity(9, false)), Some(d))
  {
    assert "x86_64"[0] == 'x' && "aarch64"[0] == 'a';
  }

  /** A clock of 2100.75 MHz counts as 2100 MHz, and one of -0.5 as 0. */
  lemma ClockVerdicts(d: HardwareDetails)
    requires d == HOST_DETAILS
    ensures HardwareAccepted(NO_REQS.(cpuMhz := Quantity(2100, true)), Some(d))
    ensures !HardwareAccepted(NO_REQS.(cpuMhz := Quantity(2101, false)), Some(d))
    ensures !HardwareAccepted(NO_REQS.(cpuMhz := Quantity(2000, true)), Some(d))
    ensures !HardwareAccepted(NO_REQS.(cpuMhz := Quantity(-1, true)), Some(d.(clockMegahertz := -0.5)))
  {
    assert Trunc(2100.75) == 2100 && Trunc(-0.5) == 0;
  }

  /** 16384 MiB are 16 Gb, and one mebibyte less is not; 100 * 2^30 bytes are 100 Gb, and one byte less is not. */
  lemma SizeVerdicts(d: HardwareDetails, disk: Disk)
    requires d == HOST_DETAILS && disk == Disk(100 * GIB, true)
    ensures HardwareAccepted(NO_REQS.(memGb := Quantity(16, true)), Some(d))
    ensures !HardwareAccepted(NO_REQS.(memGb := Quantity(16, false)), Some(d.(ramMebibytes := 16383)))
    ensures HardwareAccepted(NO_REQS.(diskGb := Quantity(100, true)), Some(d))
    ensures !HardwareAccepted(NO_REQS.(diskGb := Quantity(100, false)),
                              Some(d.(storage := [disk.(sizeBytes := 100 * GIB - 1)])))
  {
    var fits := (disk: Disk) => DiskIsBigEnough(disk, Quantity(100, true));
    DiskTestExactly(disk, Quantity(100, true));
    FirstFitExists(d.storage, fits, 0);
    DiskTestExactly(disk.(sizeBytes := 100 * GIB - 1), Quantity(100, false));
    SmallSizesAreNotMisjudged(100 * GIB - 1, 100, false);
  }

  /** A quantity of 0 asks for nothing, exact or not, and a type flag without either bit neither. */
  lemma ZeroAsksForNothing(reqs: HardwareReqs, d: HardwareDetails)
    requires reqs.arch == "" && reqs.cpuCount.value == 0 && reqs.cpuMhz.value == 0 && reqs.memGb.value == 0
    requires reqs.diskGb.value == 0 && !reqs.ssd.ssd && !reqs.ssd.exactMatch
    ensures HardwareAccepted(reqs, Some(d))
  {
  }

  /** No request accepts any host; a request accepts no host without an inventory. */
  lemma UnknownHardware(reqs: HardwareReqs)
    ensures HardwareAccepted(reqs, None) <==> reqs == NO_REQS
    ensures forall hardware :: HardwareAccepted(NO_REQS, hardware)
  {
  }

  /** Halfway cases are rounded to the even neighbour. */
  lemma TiesGoToEven()
    ensures Float(0x20_0000_0000_0001) == 0x20_0000_0000_0000 as real
    ensures Float(0x20_0000_0000_0003) == 0x20_0000_0000_0004 as real
  {
    assert Ulp(0x20_0000_0000_0001) == 2 && Ulp(0x20_0000_0000_0003) == 2;
  }

  // ---------------------------------------------------------------- relaxing a request

  lemma {:induction false} UlpBounds(x: nat)
    ensures x < TWO_TO_53 * Ulp(x)
    ensures Ulp(x) > 1 ==> x >= TWO_TO_53 / 2 * Ulp(x)
  {
    if x >= TWO_TO_53 {
      UlpBounds(x / 2);
    }
  }

  lemma {:induction false} UlpIsMonotone(x: nat, y: nat)
    requires x <= y
    ensures Ulp(x) == Ulp(y) || 2 * Ulp(x) <= Ulp(y)
  {
    if x >= TWO_TO_53 {
      UlpIsMonotone(x / 2, y / 2);
    }
  }

  lemma Scale(a: nat, b: nat, u: nat)
    requires a <= b
    ensures a * u <= b * u
  {
  }

  lemma RoundsToNeighbour(x: nat, u: nat)
    requires u > 0
    ensures (x / u) * u <= RoundTo(x, u) <= (x / u + 1) * u
  {
    Scale(x / u, NearestMultiple(x, u), u);
    Scale(NearestMultiple(x, u), x / u + 1, u);
  }

  lemma QuotientBelow(x: nat, u: nat, n: nat)
    requires u > 0 && x < n * u
    ensures x / u + 1 <= n
  {
    assert x == (x / u) * u + x % u;
    if x / u >= n {
      Scale(n, x / u, u);
    }
  }

  lemma QuotientAbove(x: nat, u: nat, n: nat)
    requires u > 0 && x >= n * u
    ensures x / u >= n
  {
    assert x == (x / u) * u + x % u;
    if x / u + 1 <= n {
      Scale(x / u + 1, n, u);
    }
  }

  lemma QuotientIsMonotone(x: nat, y: nat, u: nat)
    requires u > 0 && x <= y
    ensures x / u <= y / u
    ensures x / u == y / u ==> x % u <= y % u
  {
    assert x == (x / u) * u + x % u;
    QuotientAbove(y, u, x / u);
    assert y == (y / u) * u + y % u;
  }

  lemma RoundToIsMonotone(x: nat, y: nat, u: nat)
    requires u > 0 && x <= y
    ensures RoundTo(x, u) <= RoundTo(y, u)
  {
    QuotientIsMonotone(x, y, u);
    assert NearestMultiple(x, u) <= NearestMultiple(y, u);
    Scale(NearestMultiple(x, u), NearestMultiple(y, u), u);
  }

  lemma RoundsBelow(x: nat, u: nat, n: nat)
    requires u > 0 && x < n * u
    ensures RoundTo(x, u) <= n * u
  {
    RoundsToNeighbour(x, u);
    QuotientBelow(x, u, n);
    Scale(x / u + 1, n, u);
  }

  lemma RoundsAbove(x: nat, u: nat, n: nat)
    requires u > 0 && x >= n * u
    ensures RoundTo(x, u) >= n * u
  {
    RoundsToNeighbour(x, u);
    QuotientAbove(x, u, n);
    Scale(n, x / u, u);
  }

  lemma RoundingIsMonotone(x: nat, y: nat)
    requires x <= y
    ensures RoundNat(x) <= RoundNat(y)
  {
    UlpIsMonotone(x, y);
    if Ulp(x) == Ulp(y) {
      RoundToIsMonotone(x, y, Ulp(x));
    } else {
      UlpBounds(x);
      UlpBounds(y);
      RoundsBelow(x, Ulp(x), TWO_TO_53);
      RoundsAbove(y, Ulp(y), TWO_TO_53 / 2);
    }
  }

  /** Dropping a request, or asking for no more and without the exact-match flag. */
  predicate RelaxedQuantity(q': Quantity, q: Quantity) {
    q' == q || q' == Quantity(0, false) || (!q'.exactMatch && 0 <= q'.value <= q.value)
  }

  /** `reqs'` relaxes the CPU and memory requests of `reqs` and keeps the disk requests. */
  predicate RelaxedReqs(reqs': HardwareReqs, reqs: HardwareReqs) {
    && (reqs'.arch == reqs.arch || reqs'.arch == "")
    && RelaxedQuantity(reqs'.cpuCount, reqs.cpuCount)
    && RelaxedQuantity(reqs'.cpuMhz, reqs.cpuMhz)
    && RelaxedQuantity(reqs'.memGb, reqs.memGb)
    && reqs'.diskGb == reqs.diskGb && reqs'.ssd == reqs.ssd
  }

  lemma RelaxedMemory(q': Quantity, q: Quantity, ram: int)
    requires RelaxedQuantity(q', q) && MemoryAccepted(q, ram)
    ensures MemoryAccepted(q', ram)
  {
    if q' != q && q'.value != 0 {
      RoundingIsMonotone(q'.value, q.value);
    }
  }

  lemma RelaxingKeepsMatch(reqs': HardwareReqs, reqs: HardwareReqs, hardware: Option<HardwareDetails>)
    requires RelaxedReqs(reqs', reqs) && HardwareAccepted(reqs, hardware)
    ensures HardwareAccepted(reqs', hardware)
  {
    if reqs' != NO_REQS && reqs != reqs' {
      assert reqs != NO_REQS;
      var d := hardware.value;
      RelaxedMemory(reqs'.memGb, reqs.memGb, d.ramMebibytes);
      assert CpuAccepted(reqs', d);
    }
  }
}
