/**
 The two scanners as loops over a file: the one `open` uses, and the stand-alone one with its own
 order of header checks.
 */
module CowScanner {
  import opened Bytes
  import opened Wrappers
  import opened CowLog

  /** The record checks, one after the other, as both scanners make them. */
  method CheckAt(p: Params, file: seq<Byte>, offset: nat, sequence: nat) returns (r: CowResult<nat>)
    requires ValidParams(p) && offset + RecordSize(p) <= |file|
    ensures r == CheckRecord(p, file[offset..offset + RecordSize(p)], sequence)
  {
    var record := file[offset..offset + RecordSize(p)];
    var view := View(record);
    if view.magic != RecordMagic() || view.reserved != 0 {
      return Err(Invalid("invalid COW record header"));
    }
    if p.h.crc(view.covered) != view.headerCrc {
      return Err(Invalid("invalid COW record header CRC32C"));
    }
    if view.sequence != sequence {
      return Err(Invalid("invalid COW record sequence"));
    }
    if view.index >= BlockCount(p) {
      return Err(Invalid("COW block index out of range"));
    }
    if p.h.crc(view.data) != view.dataCrc {
      return Err(Invalid("invalid COW block data CRC32C"));
    }
    return Ok(view.index);
  }

  /** The record loop. */
  method ScanRecords(p: Params, file: seq<Byte>) returns (r: CowResult<Scan>)
    requires ValidParams(p) && |file| >= HEADER_SIZE
    ensures r == ScanFrom(RecordChecker(p), RecordSize(p), file, HEADER_SIZE, 0, map[])
  {
    var latest: map<nat, nat> := map[];
    var offset, sequence, records, tail := HEADER_SIZE, 1, 0, false;
    ghost var check := RecordChecker(p);
    while offset < |file|
      invariant HEADER_SIZE <= offset <= |file| && sequence == records + 1 && !tail
      invariant ScanFrom(check, RecordSize(p), file, HEADER_SIZE, 0, map[])
             == ScanFrom(check, RecordSize(p), file, offset, records, latest)
      decreases |file| - offset
    {
      if |file| - offset < RECORD_HEADER_SIZE {
        tail := true;
        break;
      }
      var end := offset + RECORD_HEADER_SIZE + p.blockSize;
      if end > |file| {
        tail := true;
        break;
      }
      var checked := CheckAt(p, file, offset, sequence);
      if checked.Err? {
        return Err(checked.error);
      }
      latest := latest[checked.value := offset + RECORD_HEADER_SIZE];
      records := records + 1;
      sequence := sequence + 1;
      offset := end;
    }
    return Ok(Scan(records, tail, latest, offset));
  }

  /** `scan_cow_from_file`: what `open` runs on an existing file. */
  method ScanCowFromFile(p: Params, file: seq<Byte>) returns (r: CowResult<Scan>)
    requires ValidParams(p)
    ensures r == ScanFile(p, file)
  {
    if |file| < HEADER_SIZE {
      return Err(Invalid("truncated COW header"));
    }
    var h := file[..HEADER_SIZE];
    if !HeaderFieldsOk(p, h) {
      return Err(Invalid("invalid or mismatched COW header"));
    }
    if file[28..60] != p.h.sha(p.base) {
      return Err(BaseMismatch);
    }
    r := ScanRecords(p, file);
  }

  /** `scan_cow`: it also validates the parameters, and tells a damaged header from one made for
      another base. It accepts the same files as the other scanner, with the same index. */
  method ScanCow(p: Params, file: seq<Byte>) returns (r: CowResult<Scan>)
    requires |p.base| <= MAX_FILE
    ensures r.Ok? <==> ValidParams(p) && ScanFile(p, file).Ok?
    ensures r.Ok? ==> r == ScanFile(p, file)
    ensures ValidParams(p) ==> (r == Err(BaseMismatch) <==> ScanFile(p, file) == Err(BaseMismatch))
  {
    if p.device > 3 {
      return Err(Invalid("unsupported COW device type"));
    }
    if p.base == [] {
      return Err(Invalid("base image must be non-empty"));
    }
    if !(1 <= p.blockSize <= 4096) {
      return Err(Invalid("block size must be in 1..=4096"));
    }
    if |file| < HEADER_SIZE {
      return Err(Invalid("truncated COW header"));
    }
    var h := file[..HEADER_SIZE];
    if h[..8] != HeaderMagic() || FromLE(h[8..10]) != 1 || FromLE(h[10..12]) != 64 || FromLE(h[14..16]) != 0
       || p.h.crc(h[..60]) != FromLE(h[60..64])
    {
      return Err(Invalid("invalid COW header"));
    }
    if FromLE(h[12..14]) != p.device || FromLE(h[16..20]) != p.blockSize || FromLE(h[20..28]) != |p.base| {
      return Err(Invalid("COW parameters do not match base"));
    }
    if file[28..60] != p.h.sha(p.base) {
      return Err(BaseMismatch);
    }
    r := ScanRecords(p, file);
    NoBaseMismatch(RecordChecker(p), RecordSize(p), file, HEADER_SIZE, 0, map[]);
  }

  lemma {:induction false} NoBaseMismatch(
    check: Checker, size: nat, file: seq<Byte>, at: nat, records: nat, latest: map<nat, nat>)
    requires at <= |file| && size > 0
    requires forall r, k: nat :: check(r, k).Err? ==> check(r, k).error != BaseMismatch
    ensures ScanFrom(check, size, file, at, records, latest) != Err(BaseMismatch)
    decreases |file| - at
  {
    if at + size > |file| {
    } else {
      match check(file[at..at + size], records + 1)
      case Err(_) =>
      case Ok(index) =>
        NoBaseMismatch(check, size, file, at + size, records + 1, latest[index := at + RECORD_HEADER_SIZE]);
    }
  }
}
