/**
 What scanning finds: the scanner accepts exactly the logs followed by less than one record, and
 its index points at the data of the latest write of each block.
 */
module CowScan {
  import opened Bytes
  import opened Wrappers
  import opened CowLog

  // ---- logs of any records that a checker recognises ----

  /** `check` accepts exactly the encodings of valid writes, all `size` bytes long. */
  ghost predicate Recognises(check: Checker, enc: Encoder, size: nat, valid: BlockWrite -> bool) {
    && size > RECORD_HEADER_SIZE
    && (forall k: nat, w :: valid(w) ==> |enc(k, w)| == size && enc(k, w)[RECORD_HEADER_SIZE..] == w.data)
    && (forall k: U64, w :: valid(w) ==> check(enc(k, w), k) == Ok(w.index))
    && (forall k: nat, r :: |r| == size && check(r, k).Ok? ==>
          var w := BlockWrite(check(r, k).value, r[RECORD_HEADER_SIZE..]);
          valid(w) && enc(k, w) == r)
  }

  predicate AllValid(valid: BlockWrite -> bool, ws: seq<BlockWrite>) {
    forall k :: 0 <= k < |ws| ==> valid(ws[k])
  }

  lemma MulSucc(k: nat, r: nat)
    ensures (k + 1) * r == k * r + r
  {
  }

  lemma LogSnoc(header: seq<Byte>, enc: Encoder, ws: seq<BlockWrite>, w: BlockWrite)
    ensures LogOf(header, enc, ws + [w]) == LogOf(header, enc, ws) + enc(|ws| + 1, w)
  {
    assert (ws + [w])[..|ws|] == ws;
  }

  lemma IndexSnoc(size: nat, ws: seq<BlockWrite>, w: BlockWrite)
    ensures IndexOf(size, ws + [w]) == IndexOf(size, ws)[w.index := DataOffset(size, |ws|)]
  {
    assert (ws + [w])[..|ws|] == ws;
  }

  lemma {:induction false} LogLength(header: seq<Byte>, enc: Encoder, size: nat, valid: BlockWrite -> bool, ws: seq<BlockWrite>)
    requires forall k: nat, w :: valid(w) ==> |enc(k, w)| == size
    requires AllValid(valid, ws)
    ensures |LogOf(header, enc, ws)| == |header| + |ws| * size
  {
    if ws == [] {
    } else {
      LogLength(header, enc, size, valid, ws[..|ws| - 1]);
      MulSucc(|ws| - 1, size);
    }
  }

  lemma {:induction false} LogPrefix(header: seq<Byte>, enc: Encoder, ws: seq<BlockWrite>, vs: seq<BlockWrite>)
    ensures LogOf(header, enc, ws) <= LogOf(header, enc, ws + vs)
    decreases |vs|
  {
    if vs == [] {
      assert ws + vs == ws;
    } else {
      var last := vs[|vs| - 1];
      LogPrefix(header, enc, ws, vs[..|vs| - 1]);
      assert ws + vs == (ws + vs[..|vs| - 1]) + [last];
      LogSnoc(header, enc, ws + vs[..|vs| - 1], last);
    }
  }

  /** A log of `done + rest` with a torn tail, scanned from behind `done`. */
  lemma {:induction false} ScanFindsRest(check: Checker, enc: Encoder, size: nat, valid: BlockWrite -> bool, header: seq<Byte>,
                                         done: seq<BlockWrite>, rest: seq<BlockWrite>, tail: seq<Byte>, file: seq<Byte>, at: nat)
    requires Recognises(check, enc, size, valid) && AllValid(valid, done + rest) && |tail| < size && |header| == HEADER_SIZE
    requires |done + rest| < 0x1_0000_0000_0000_0000
    requires file == LogOf(header, enc, done + rest) + tail && at == |LogOf(header, enc, done)|
    ensures at <= |file|
    ensures ScanFrom(check, size, file, at, |done|, IndexOf(size, done))
         == Ok(Scan(|done + rest|, tail != [], IndexOf(size, done + rest), |file| - |tail|))
    decreases |rest|
  {
    hide AllValid, IndexOf, LogOf;
    RecordsHaveSize(check, enc, size, valid);
    LogPrefix(header, enc, done, rest);
    if rest == [] {
      assert done + rest == done;
    } else {
      var next := done + [rest[0]];
      assert next + rest[1..] == done + rest;
      Earlier(valid, done, rest);
      LogLength(header, enc, size, valid, done);
      NextRecord(check, enc, size, header, done, rest, tail, file, at);
      ScanStep(check, size, file, at, |done|, IndexOf(size, done), rest[0].index);
      ScanFindsRest(check, enc, size, valid, header, next, rest[1..], tail, file, at + size);
    }
  }

  lemma Earlier(valid: BlockWrite -> bool, done: seq<BlockWrite>, rest: seq<BlockWrite>)
    requires AllValid(valid, done + rest)
    ensures AllValid(valid, done) && (rest != [] ==> valid(rest[0]))
  {
    forall k | 0 <= k < |done| ensures valid(done[k]) {
      assert valid((done + rest)[k]);
    }
    if rest != [] {
      assert valid((done + rest)[|done|]);
    }
  }

  /** The record behind `done` is complete, accepted, and brings the index up to date. */
  lemma NextRecord(check: Checker, enc: Encoder, size: nat, header: seq<Byte>, done: seq<BlockWrite>, rest: seq<BlockWrite>,
                   tail: seq<Byte>, file: seq<Byte>, at: nat)
    requires rest != [] && at == |LogOf(header, enc, done)| == HEADER_SIZE + |done| * size
    requires file == LogOf(header, enc, done + rest) + tail
    requires var r := enc(|done| + 1, rest[0]); |r| == size && check(r, |done| + 1) == Ok(rest[0].index)
    ensures at + size <= |file| && |LogOf(header, enc, done + [rest[0]])| == at + size
    ensures check(file[at..at + size], |done| + 1) == Ok(rest[0].index)
    ensures IndexOf(size, done + [rest[0]]) == IndexOf(size, done)[rest[0].index := at + RECORD_HEADER_SIZE]
  {
    var next := done + [rest[0]];
    assert next + rest[1..] == done + rest;
    LogSnoc(header, enc, done, rest[0]);
    IndexSnoc(size, done, rest[0]);
    LogPrefix(header, enc, next, rest[1..]);
    SliceOfPrefix(file, LogOf(header, enc, done), enc(|done| + 1, rest[0]));
  }

  /** Scanning past one accepted record. */
  lemma ScanStep(check: Checker, size: nat, file: seq<Byte>, at: nat, records: nat, latest: map<nat, nat>, index: nat)
    requires size > 0 && at + size <= |file| && check(file[at..at + size], records + 1) == Ok(index)
    ensures ScanFrom(check, size, file, at, records, latest)
         == ScanFrom(check, size, file, at + size, records + 1, latest[index := at + RECORD_HEADER_SIZE])
  {
  }

  lemma SliceOfPrefix<T>(whole: seq<T>, a: seq<T>, r: seq<T>)
    requires a + r <= whole
    ensures whole[|a|..|a| + |r|] == r
  {
  }

  lemma RecordsHaveSize(check: Checker, enc: Encoder, size: nat, valid: BlockWrite -> bool)
    requires Recognises(check, enc, size, valid)
    ensures size > RECORD_HEADER_SIZE && forall k: nat, w :: valid(w) ==> |enc(k, w)| == size
  {
  }

  /** What passes the checks is the record of a valid write. */
  lemma Recognised(check: Checker, enc: Encoder, size: nat, valid: BlockWrite -> bool, r: seq<Byte>, k: nat) returns (w: BlockWrite)
    requires Recognises(check, enc, size, valid) && |r| == size && check(r, k).Ok?
    ensures size > RECORD_HEADER_SIZE && w == BlockWrite(check(r, k).value, r[RECORD_HEADER_SIZE..])
    ensures valid(w) && enc(k, w) == r
  {
    w := BlockWrite(check(r, k).value, r[RECORD_HEADER_SIZE..]);
  }

  lemma OneMoreValid(valid: BlockWrite -> bool, done: seq<BlockWrite>, w: BlockWrite)
    requires AllValid(valid, done) && valid(w)
    ensures AllValid(valid, done + [w])
  {
  }

  lemma ScannedRest(check: Checker, enc: Encoder, size: nat, valid: BlockWrite -> bool, header: seq<Byte>,
                    file: seq<Byte>, done: seq<BlockWrite>) returns (ws: seq<BlockWrite>)
    requires Recognises(check, enc, size, valid) && AllValid(valid, done) && LogOf(header, enc, done) <= file
    requires ScanFrom(check, size, file, |LogOf(header, enc, done)|, |done|, IndexOf(size, done)).Ok?
    requires |header| == HEADER_SIZE
    ensures AllValid(valid, ws) && LogOf(header, enc, ws) <= file && |file| - |LogOf(header, enc, ws)| < size
    decreases |file| - |LogOf(header, enc, done)|
  {
    hide Recognises, AllValid, LogOf, IndexOf;
    RecordsHaveSize(check, enc, size, valid);
    var at := |LogOf(header, enc, done)|;
    if at + size > |file| {
      ws := done;
    } else {
      var r := file[at..at + size];
      var w := Recognised(check, enc, size, valid, r, |done| + 1);
      OneMoreValid(valid, done, w);
      LogSnoc(header, enc, done, w);
      IndexSnoc(size, done, w);
      PrefixGrows(file, LogOf(header, enc, done), r);
      LogLength(header, enc, size, valid, done);
      ws := ScannedRest(check, enc, size, valid, header, file, done + [w]);
    }
  }

  lemma PrefixGrows<T>(file: seq<T>, a: seq<T>, r: seq<T>)
    requires a <= file && |a| + |r| <= |file| && r == file[|a|..|a| + |r|]
    ensures a + r <= file
  {
  }

  /** Latest data of each written block. */
  function Latest(ws: seq<BlockWrite>): map<nat, seq<Byte>> {
    if ws == [] then map[]
    else Latest(ws[..|ws| - 1])[ws[|ws| - 1].index := ws[|ws| - 1].data]
  }

  /** The index has an entry for exactly the written blocks, and it points at their latest data. */
  lemma {:induction false} IndexPointsAtLatest(
    enc: Encoder, size: nat, valid: BlockWrite -> bool, header: seq<Byte>, ws: seq<BlockWrite>, b: nat)
    requires size > RECORD_HEADER_SIZE && |header| == HEADER_SIZE && AllValid(valid, ws)
    requires forall k: nat, w :: valid(w) ==> |enc(k, w)| == size && enc(k, w)[RECORD_HEADER_SIZE..] == w.data
    ensures b in IndexOf(size, ws) <==> b in Latest(ws)
    ensures b in Latest(ws) ==>
              && RECORD_HEADER_SIZE + |Latest(ws)[b]| == size
              && IndexOf(size, ws)[b] + |Latest(ws)[b]| <= |LogOf(header, enc, ws)|
              && LogOf(header, enc, ws)[IndexOf(size, ws)[b]..][..|Latest(ws)[b]|] == Latest(ws)[b]
  {
    if ws != [] {
      var n := |ws| - 1;
      var prior, r := LogOf(header, enc, ws[..n]), enc(|ws|, ws[n]);
      IndexPointsAtLatest(enc, size, valid, header, ws[..n], b);
      LogLength(header, enc, size, valid, ws[..n]);
      if ws[n].index == b {
        DropDrop(prior, r, RECORD_HEADER_SIZE);
      } else if b in Latest(ws) {
        SliceKept(prior, r, IndexOf(size, ws)[b], |Latest(ws)[b]|);
      }
    }
  }

  lemma DropDrop<T>(a: seq<T>, r: seq<T>, n: nat)
    requires n <= |r|
    ensures (a + r)[|a| + n..] == r[n..]
    ensures r[n..][..|r| - n] == r[n..]
  {
  }

  lemma SliceKept<T>(a: seq<T>, r: seq<T>, at: nat, n: nat)
    requires at + n <= |a|
    ensures (a + r)[at..][..n] == a[at..][..n]
  {
  }

  // ---- the overlay's own records ----

  function Writable(p: Params): BlockWrite -> bool
    requires ValidParams(p)
  {
    (w: BlockWrite) => ValidWrite(p, w)
  }

  lemma RecordsAreRecognised(p: Params)
    requires ValidParams(p)
    ensures Recognises(RecordChecker(p), RecordEncoder(p), RecordSize(p), Writable(p))
  {
    var check, enc := RecordChecker(p), RecordEncoder(p);
    forall k: U64, w | Writable(p)(w) ensures check(enc(k, w), k) == Ok(w.index) {
      CheckAcceptsRecord(p, k, w);
    }
    forall k: nat, r: seq<Byte> | |r| == RecordSize(p) && check(r, k).Ok?
      ensures var w := BlockWrite(check(r, k).value, r[RECORD_HEADER_SIZE..]);
              Writable(p)(w) && enc(k, w) == r
    {
      CheckedIsRecord(p, r, k);
    }
  }

  /** Past the header checks, a scan is a scan of the records. */
  lemma ScanFileIs(p: Params, file: seq<Byte>)
    requires ValidParams(p)
    ensures ScanFile(p, file).Ok? ==> |file| >= HEADER_SIZE && file[..HEADER_SIZE] == MakeHeader(p)
    ensures |file| >= HEADER_SIZE && file[..HEADER_SIZE] == MakeHeader(p) ==>
              ScanFile(p, file) == ScanFrom(RecordChecker(p), RecordSize(p), file, HEADER_SIZE, 0, map[])
  {
    if |file| >= HEADER_SIZE {
      SubSlice(file, HEADER_SIZE, 28, 60);
      HeaderExact(p, file[..HEADER_SIZE]);
    }
  }

  lemma SubSlice<T>(s: seq<T>, n: nat, i: nat, j: nat)
    requires i <= j <= n <= |s|
    ensures s[..n][i..j] == s[i..j]
  {
  }

  lemma PrefixOfLog(header: seq<Byte>, enc: Encoder, ws: seq<BlockWrite>, tail: seq<Byte>)
    ensures header <= LogOf(header, enc, ws) + tail && (LogOf(header, enc, ws) + tail)[..|header|] == header
  {
    LogPrefix(header, enc, [], ws);
    assert [] + ws == ws;
    assert LogOf(header, enc, []) == header;
  }

  lemma ScanFindsRecords(check: Checker, enc: Encoder, size: nat, valid: BlockWrite -> bool, header: seq<Byte>,
                         ws: seq<BlockWrite>, tail: seq<Byte>)
    requires Recognises(check, enc, size, valid) && AllValid(valid, ws) && |tail| < size && |header| == HEADER_SIZE
    requires |LogOf(header, enc, ws)| <= MAX_FILE
    ensures |LogOf(header, enc, ws) + tail| >= HEADER_SIZE
    ensures ScanFrom(check, size, LogOf(header, enc, ws) + tail, HEADER_SIZE, 0, map[])
         == Ok(Scan(|ws|, tail != [], IndexOf(size, ws), |LogOf(header, enc, ws)|))
  {
    LogLength(header, enc, size, valid, ws);
    CountBounded(|ws|, size);
    assert [] + ws == ws;
    assert LogOf(header, enc, []) == header;
    ScanFindsRest(check, enc, size, valid, header, [], ws, tail, LogOf(header, enc, ws) + tail, HEADER_SIZE);
  }

  lemma CountBounded(n: nat, size: nat)
    requires size >= 1
    ensures n <= n * size
  {
  }

  /** A log with any torn tail scans to its index. */
  lemma ScanFindsLog(p: Params, ws: seq<BlockWrite>, tail: seq<Byte>)
    requires ValidParams(p) && ValidWrites(p, ws) && |tail| < RecordSize(p) && |Log(p, ws)| <= MAX_FILE
    ensures ScanFile(p, Log(p, ws) + tail) == Ok(Scan(|ws|, tail != [], IndexOf(RecordSize(p), ws), |Log(p, ws)|))
  {
    RecordsAreRecognised(p);
    PrefixOfLog(MakeHeader(p), RecordEncoder(p), ws, tail);
    ScanFileIs(p, Log(p, ws) + tail);
    ScanFindsRecords(RecordChecker(p), RecordEncoder(p), RecordSize(p), Writable(p), MakeHeader(p), ws, tail);
  }

  lemma ScannedRecords(check: Checker, enc: Encoder, size: nat, valid: BlockWrite -> bool, header: seq<Byte>, file: seq<Byte>)
    returns (ws: seq<BlockWrite>)
    requires Recognises(check, enc, size, valid) && |header| == HEADER_SIZE && header <= file
    requires ScanFrom(check, size, file, HEADER_SIZE, 0, map[]).Ok?
    ensures AllValid(valid, ws) && LogOf(header, enc, ws) <= file && |file| - |LogOf(header, enc, ws)| < size
  {
    assert LogOf(header, enc, []) == header;
    ws := ScannedRest(check, enc, size, valid, header, file, []);
  }

  /** Whatever the scanner accepts is a log with a torn tail, and the scan describes that log. */
  lemma ScannedIsLog(p: Params, file: seq<Byte>) returns (ws: seq<BlockWrite>)
    requires ValidParams(p) && |file| <= MAX_FILE && ScanFile(p, file).Ok?
    ensures ValidWrites(p, ws) && Log(p, ws) <= file && |file| - |Log(p, ws)| < RecordSize(p)
    ensures ScanFile(p, file)
         == Ok(Scan(|ws|, |file| > |Log(p, ws)|, IndexOf(RecordSize(p), ws), |Log(p, ws)|))
  {
    ScanFileIs(p, file);
    RecordsAreRecognised(p);
    ws := ScannedRecords(RecordChecker(p), RecordEncoder(p), RecordSize(p), Writable(p), MakeHeader(p), file);
    forall k | 0 <= k < |ws| ensures ValidWrite(p, ws[k]) {
      assert Writable(p)(ws[k]);
    }
    SplitAt(file, Log(p, ws));
    ScanFindsLog(p, ws, file[|Log(p, ws)|..]);
  }

  lemma SplitAt<T>(file: seq<T>, a: seq<T>)
    requires a <= file
    ensures file == a + file[|a|..]
  {
  }
}
