/** Storage sizes: bytes and mebibytes in 64-bit arithmetic, and the capacity a request asks for. */
module Storage {
  import opened Wrappers

  const MIB: int := 0x10_0000
  const TWO_63: int := 0x8000_0000_0000_0000
  const TWO_43: int := 0x800_0000_0000

  type int64 = n: int | -TWO_63 <= n < TWO_63

  const MINIMUM_VOLUME_SIZE: int64 := 4194304
  const MAXIMUM_VOLUME_SIZE: int64 := 4398046511104
  const DEFAULT_VOLUME_SIZE: int64 := 5 * 1024 * MIB

  /** Two's complement wrap-around of Go's int64. */
  function Wrap(n: int): int64 {
    (n + TWO_63) % (2 * TWO_63) - TWO_63
  }

  /** Go's division, which truncates toward zero. */
  function Quot(n: int, d: int): int
    requires d > 0
  {
    if n >= 0 then n / d else -(-n / d)
  }

  datatype StorageSize = StorageSize(b: int64) {
    function Mb(): (mb: int64) {
      Quot(Quot(b, 1024), 1024)
    }

    function Bytes(): int64 {
      b
    }
  }

  function FromMb(mb: int64): StorageSize {
    StorageSize(Wrap(Wrap(mb * 1024) * 1024))
  }

  /** Mb rounds toward zero by less than one mebibyte, and FromMb brings the rounded value back
      without overflow, whatever the 64-bit size. */
  lemma MbOfBytes(size: StorageSize)
    ensures -TWO_43 <= size.Mb() < TWO_43
    ensures FromMb(size.Mb()).Bytes() == size.Mb() * MIB
    ensures size.b >= 0 ==> size.b - MIB < size.Mb() * MIB <= size.b
    ensures size.b < 0 ==> size.b <= size.Mb() * MIB < size.b + MIB
  {
    MbInRange(size);
    FromMbExact(size.Mb());
  }

  lemma MbInRange(size: StorageSize)
    ensures -TWO_43 <= size.Mb() < TWO_43
    ensures size.b >= 0 ==> size.b - MIB < size.Mb() * MIB <= size.b
    ensures size.b < 0 ==> size.b <= size.Mb() * MIB < size.b + MIB
  {
    var m := if size.b >= 0 then size.b as int else -(size.b as int);
    assert m / 1024 / 1024 * MIB <= m < (m / 1024 / 1024 + 1) * MIB;
  }

  /** Every size the cloud can hold in this range converts to bytes exactly; one mebibyte more wraps. */
  lemma FromMbExact(mb: int64)
    ensures -TWO_43 <= mb < TWO_43 <==> FromMb(mb).Bytes() == mb * MIB
  {
    if -TWO_43 <= mb < TWO_43 {
      assert Wrap(mb * 1024) == mb * 1024;
      assert Wrap(mb * 1024 * 1024) == mb * 1024 * 1024;
    }
  }

  datatype CapacityRange = CapacityRange(requiredBytes: int64, limitBytes: int64)

  datatype RangeError = LimitBelowRequired | RequiredBelowMinimum | LimitBelowMinimum
                      | RequiredAboveMaximum | LimitAboveMaximum

  function ExtractStorage(range: Option<CapacityRange>): Result<StorageSize, RangeError> {
    if range.None? then Ok(StorageSize(DEFAULT_VOLUME_SIZE))
    else
      var required := range.value.requiredBytes;
      var limit := range.value.limitBytes;
      var requiredSet := 0 < required;
      var limitSet := 0 < limit;
      if !requiredSet && !limitSet then Ok(StorageSize(DEFAULT_VOLUME_SIZE))
      else if requiredSet && limitSet && limit < required then Err(LimitBelowRequired)
      else if requiredSet && !limitSet && required < MINIMUM_VOLUME_SIZE then Err(RequiredBelowMinimum)
      else if limitSet && limit < MINIMUM_VOLUME_SIZE then Err(LimitBelowMinimum)
      else if requiredSet && required > MAXIMUM_VOLUME_SIZE then Err(RequiredAboveMaximum)
      else if !requiredSet && limitSet && limit > MAXIMUM_VOLUME_SIZE then Err(LimitAboveMaximum)
      else if requiredSet && limitSet && required == limit then Ok(StorageSize(required))
      else if requiredSet then Ok(StorageSize(required))
      else if limitSet then Ok(StorageSize(limit))
      else Ok(StorageSize(DEFAULT_VOLUME_SIZE))
  }

  /** The bounds of a range that are set, with the driver's own minimum and maximum. */
  predicate Within(size: int, range: CapacityRange) {
    && size <= MAXIMUM_VOLUME_SIZE
    && (0 < range.requiredBytes ==> range.requiredBytes <= size)
    && (0 < range.limitBytes ==> size <= range.limitBytes)
  }

  /** The family the minimum check misses: both bounds set around the minimum. */
  predicate StraddlesMinimum(range: CapacityRange) {
    0 < range.requiredBytes < MINIMUM_VOLUME_SIZE <= range.limitBytes
  }

  /** A granted size lies within the bounds that are set, and reaches the supported minimum exactly when the
      range does not straddle it. */
  lemma ExtractStorageBounds(range: CapacityRange)
    requires ExtractStorage(Some(range)).Ok?
    ensures Within(ExtractStorage(Some(range)).value.Bytes(), range)
    ensures MINIMUM_VOLUME_SIZE <= ExtractStorage(Some(range)).value.Bytes() <==> !StraddlesMinimum(range)
  {
  }

  /** The size a range should be granted: the least within its bounds where it requires one, else the greatest where it
      limits it, and 5 GiB where it sets no bound. */
  ghost predicate Best(range: Option<CapacityRange>, granted: int) {
    if range.None? || (range.value.requiredBytes <= 0 && range.value.limitBytes <= 0) then granted == 5_368_709_120
    else
      && Within(granted, range.value)
      && (0 < range.value.requiredBytes ==> forall size: int :: Within(size, range.value) ==> granted <= size)
      && (range.value.requiredBytes <= 0 ==> forall size: int :: Within(size, range.value) ==> size <= granted)
  }

  lemma GrantIsBest(range: Option<CapacityRange>)
    requires ExtractStorage(range).Ok?
    ensures Best(range, ExtractStorage(range).value.Bytes())
    ensures 0 < ExtractStorage(range).value.Bytes() <= 4_398_046_511_104
  {
  }

  /** A bare limit above the maximum, and a bare requirement below the minimum. */
  predicate OneSidedOutside(range: CapacityRange) {
    || (range.requiredBytes <= 0 && MAXIMUM_VOLUME_SIZE < range.limitBytes)
    || (range.limitBytes <= 0 && 0 < range.requiredBytes < MINIMUM_VOLUME_SIZE)
  }

  ghost predicate SomeSizeMeets(range: CapacityRange) {
    exists size: int :: MINIMUM_VOLUME_SIZE <= size && Within(size, range)
  }

  /** The one-sided ranges are refused although supported sizes meet them. */
  lemma OneSidedRefused(range: CapacityRange)
    requires OneSidedOutside(range)
    ensures ExtractStorage(Some(range)).Err? && SomeSizeMeets(range)
  {
    assert MINIMUM_VOLUME_SIZE <= MINIMUM_VOLUME_SIZE && Within(MINIMUM_VOLUME_SIZE, range);
  }

  /** A range is granted exactly when some supported size meets it and it is not one of the one-sided ranges
      above. */
  lemma ExtractStorageComplete(range: CapacityRange)
    ensures ExtractStorage(Some(range)).Ok? <==> SomeSizeMeets(range) && !OneSidedOutside(range)
  {
    if ExtractStorage(Some(range)).Ok? {
      var granted := ExtractStorage(Some(range)).value.Bytes() as int;
      var size := if granted < MINIMUM_VOLUME_SIZE then MINIMUM_VOLUME_SIZE as int else granted;
      assert MINIMUM_VOLUME_SIZE <= size && Within(size, range);
    }
  }
}
