/** The two scheduled jobs (func.go): the mailer, which decides per outage
    record whether to notify and keeps the per-outage cache file, and the
    janitor, which deletes cache files older than the retention period. */
module Jobs {
  import opened Text
  import opened Clock
  import opened Cache
  import opened Outage
  import opened Lines

  // ---------------------------------------------------------------------
  // One record: reconcile, notify, persist

  /** What happened to one fetched record. */
  datatype Outcome =
    | ParseFailed        // ParseTime failed
    | OpenFailed         // LoadOrCreateFile failed
    | ScanFailed         // scanner.Err() reported an error
    | DecodeFailed       // the cached bytes did not unmarshal
    | AlreadySent        // start or end equal to the cached one
    | ConvertFailed      // ToFileContent failed, which cannot happen once ParseTime succeeded
    | MailFailed         // mail.Do failed
    | Sent(sequence: Uint, cached: bool)  // mailed; `cached` says whether Write succeeded

  /** The external failures that may strike one record; `torn` is how many
      bytes a failing WriteAt still wrote. */
  datatype RecordFaults = RecordFaults(openFails: bool, readFails: bool, mailFails: bool, writeFails: bool,
                                       torn: nat)

  /** What a run of the mailer works with: the time zone, the JSON codec,
      the cache directory text and the clock reading used as modification
      time. */
  datatype Env = Env(loc: Location, codec: Codec, cachePathDir: string, now: int)

  /** Go's `sequence + 1` on a uint, which wraps to 0 after 2^64 - 1. */
  function Increment(s: Uint): (r: Uint)
    ensures s < UintLimit - 1 ==> r == s + 1
    ensures s == UintLimit - 1 ==> r == 0
  {
    (s + 1) % UintLimit
  }

  /** The three ways a read record can go. */
  datatype Decision = Undecodable | Unchanged | Notify(sequence: Uint)

  /** The decision of func.go:89-106 on the bytes read back. */
  function Decide(codec: Codec, fileData: seq<byte>, start: Instant, stop: Instant): (r: Decision)
    ensures |fileData| == 0 ==> r == Notify(0)
    ensures r == Undecodable <==> |fileData| > 0 && codec.decode(fileData).None?
    ensures r == Unchanged <==>
              && |fileData| > 0 && codec.decode(fileData).Some?
              && (Equal(codec.decode(fileData).value.startOutageDateTime, start)
                  || Equal(codec.decode(fileData).value.endOutageDateTime, stop))
    ensures r.Notify? && |fileData| > 0 ==>
              && codec.decode(fileData).Some?
              && !Equal(codec.decode(fileData).value.startOutageDateTime, start)
              && !Equal(codec.decode(fileData).value.endOutageDateTime, stop)
              && r.sequence == Increment(codec.decode(fileData).value.sequence)
  {
    if |fileData| == 0 then Notify(0)
    else
      match codec.decode(fileData)
      case None => Undecodable
      case Some(stored) =>
        if Equal(stored.startOutageDateTime, start) || Equal(stored.endOutageDateTime, stop)
        then Unchanged
        else Notify(Increment(stored.sequence))
  }

  /** The cache file of a record whose parsed times are `t`. */
  function Key(env: Env, billID: string, d: Data, t: Times): string
  {
    CachePath(env.cachePathDir, billID, d.outageNumber, t.start)
  }

  /** The body of the loop at func.go:63-122 for one record, once ParseTime
      has given `t`: the directory afterwards and the outcome. The record
      mailed and written is the one ToFileContent builds from `t`. */
  function ReconcileParsed(files: Files, env: Env, billID: string, recipients: seq<string>, d: Data,
                           t: Times, faults: RecordFaults): (r: (Files, Outcome))
    ensures r.1 == ParseFailed <==> t.err.Some?
    ensures r.1 == OpenFailed <==> t.err.None? && faults.openFails
    ensures t.err.Some? || faults.openFails ==> r.0 == files
    ensures t.err.None? && !faults.openFails ==> r.0.Keys == files.Keys + {Key(env, billID, d, t)}
    ensures r.1 == ScanFailed ==> r.0 == Opened(files, Key(env, billID, d, t), env.now)
  {
    if t.err.Some? then (files, ParseFailed)
    else if faults.openFails then (files, OpenFailed)
    else
      var path := Key(env, billID, d, t);
      var dir := Opened(files, path, env.now);
      var scanned := Scanned(dir[path].data);
      if faults.readFails || scanned.None? then (dir, ScanFailed)
      else Respond(dir, path, scanned.value, env, billID, recipients, d, t, faults)
  }

  /** The rest of the loop body once the cache file at `path` has been read
      back as `fileData`: decide, mail, write. */
  function Respond(dir: Files, path: string, fileData: seq<byte>, env: Env, billID: string,
                   recipients: seq<string>, d: Data, t: Times, faults: RecordFaults): (r: (Files, Outcome))
    requires path in dir
    ensures r.1 == DecodeFailed <==> Decide(env.codec, fileData, t.start, t.stop) == Undecodable
    ensures r.1 == AlreadySent <==> Decide(env.codec, fileData, t.start, t.stop) == Unchanged
    ensures r.1 in {DecodeFailed, AlreadySent} ==> r.0 == dir
    ensures r.1.Sent? ==> Decide(env.codec, fileData, t.start, t.stop) == Notify(r.1.sequence)
    ensures r.0.Keys == dir.Keys
  {
    match Decide(env.codec, fileData, t.start, t.stop)
    case Undecodable => (dir, DecodeFailed)
    case Unchanged => (dir, AlreadySent)
    case Notify(sequence) => Deliver(dir, path, sequence, env, billID, recipients, d, t, faults)
  }

  /** Mail the record with `sequence` and, if the mail went out, write it. */
  function Deliver(dir: Files, path: string, sequence: Uint, env: Env, billID: string,
                   recipients: seq<string>, d: Data, t: Times, faults: RecordFaults): (r: (Files, Outcome))
    requires path in dir
    ensures r.1 == MailFailed <==> faults.mailFails
    ensures r.1.Sent? <==> !faults.mailFails
    ensures faults.mailFails ==> r.0 == dir
    ensures r.1.Sent? ==> r.1.sequence == sequence
    ensures r.1.Sent? ==>
              (r.1.cached <==> env.codec.encode(Converted(d, t, billID, recipients, sequence)).Some? && !faults.writeFails)
    ensures r.0.Keys == dir.Keys
  {
    if faults.mailFails then (dir, MailFailed)
    else
      var record := Converted(d, t, billID, recipients, sequence);
      var (written, err) := Written(dir, path, record, env.codec, faults.writeFails, faults.torn, env.now);
      (written, Sent(sequence, err.None?))
  }

  /** One record of the loop at func.go:63-122. */
  function Reconcile(files: Files, env: Env, billID: string, recipients: seq<string>, d: Data,
                     faults: RecordFaults): (r: (Files, Outcome))
    ensures r.1 == ParseFailed <==> ParseTime(d, env.loc).err.Some?
    ensures r.1 == ParseFailed ==> r.0 == files
  {
    ReconcileParsed(files, env, billID, recipients, d, ParseTime(d, env.loc), faults)
  }

  /** One record, step by step, against the cache directory. */
  method ReconcileRecord(store: CacheStore, env: Env, billID: string, recipients: seq<string>, d: Data,
                         faults: RecordFaults)
    returns (outcome: Outcome)
    modifies store
    ensures (store.files, outcome) == Reconcile(old(store.files), env, billID, recipients, d, faults)
  {
    var t := ParseTime(d, env.loc);
    if t.err.Some? {
      return ParseFailed;
    }
    ToFileContentConverts(d, env.loc, billID, recipients);
    outcome := ReconcileParsedRecord(store, env, billID, recipients, d, t, faults);
  }

  /** The steps after ParseTime succeeded with `t`: open, then read back. */
  method ReconcileParsedRecord(store: CacheStore, env: Env, billID: string, recipients: seq<string>, d: Data,
                               t: Times, faults: RecordFaults)
    returns (outcome: Outcome)
    requires t.err.None?
    requires forall s: Uint :: ToFileContent(d, env.loc, billID, recipients, s) == Some(Converted(d, t, billID, recipients, s))
    modifies store
    ensures (store.files, outcome) == ReconcileParsed(old(store.files), env, billID, recipients, d, t, faults)
  {
    var path, ok := store.LoadOrCreateFile(env.cachePathDir, billID, d.outageNumber, t.start,
                                           faults.openFails, env.now);
    if !ok {
      return OpenFailed;
    }
    var fileData, scanned := ScanFile(store.files[path].data, faults.readFails);
    if !scanned {
      return ScanFailed;
    }
    outcome := RespondToRecord(store, path, fileData, env, billID, recipients, d, t, faults);
  }

  /** The steps after the cache file was read back: decide on the bytes,
      convert, mail, write. */
  method RespondToRecord(store: CacheStore, path: string, fileData: seq<byte>, env: Env, billID: string,
                         recipients: seq<string>, d: Data, t: Times, faults: RecordFaults)
    returns (outcome: Outcome)
    requires path in store.files
    requires forall s: Uint :: ToFileContent(d, env.loc, billID, recipients, s) == Some(Converted(d, t, billID, recipients, s))
    modifies store
    ensures (store.files, outcome) == Respond(old(store.files), path, fileData, env, billID, recipients, d, t, faults)
  {
    var sequence: Uint := 0;
    if |fileData| != 0 {
      var stored := env.codec.decode(fileData);
      if stored.None? {
        return DecodeFailed;
      }
      if Equal(stored.value.startOutageDateTime, t.start) || Equal(stored.value.endOutageDateTime, t.stop) {
        return AlreadySent;
      }
      sequence := Increment(stored.value.sequence);
    }
    outcome := DeliverRecord(store, path, sequence, env, billID, recipients, d, t, faults);
  }

  /** Convert the record with `sequence`, mail it, and write it if the mail
      went out. */
  method DeliverRecord(store: CacheStore, path: string, sequence: Uint, env: Env, billID: string,
                       recipients: seq<string>, d: Data, t: Times, faults: RecordFaults)
    returns (outcome: Outcome)
    requires path in store.files
    requires forall s: Uint :: ToFileContent(d, env.loc, billID, recipients, s) == Some(Converted(d, t, billID, recipients, s))
    modifies store
    ensures (store.files, outcome) == Deliver(old(store.files), path, sequence, env, billID, recipients, d, t, faults)
  {
    var record := ToFileContent(d, env.loc, billID, recipients, sequence);
    if record.None? {
      return ConvertFailed;
    }
    if faults.mailFails {
      return MailFailed;
    }
    var err := store.Write(record.value, path, env.codec, faults.writeFails, faults.torn, env.now);
    outcome := Sent(sequence, err.None?);
  }

  // ---------------------------------------------------------------------
  // What one record's reconciliation promises. The lemmas hold for any
  // successful parse `t`, in particular for ParseTime(d, env.loc).

  /** An outage seen for the first time (no cache file, or an empty one) is
      mailed with sequence 0, and cached unless encoding or writing fails. */
  lemma FirstSightingSendsZero(files: Files, env: Env, billID: string, recipients: seq<string>, d: Data,
                               t: Times, faults: RecordFaults)
    requires t.err.None?
    requires !faults.openFails && !faults.readFails && !faults.mailFails
    requires Key(env, billID, d, t) in files ==> files[Key(env, billID, d, t)].data == []
    ensures ReconcileParsed(files, env, billID, recipients, d, t, faults).1.Sent?
    ensures ReconcileParsed(files, env, billID, recipients, d, t, faults).1.sequence == 0
    ensures ReconcileParsed(files, env, billID, recipients, d, t, faults).1.cached
        <==> env.codec.encode(Converted(d, t, billID, recipients, 0)).Some? && !faults.writeFails
  {
  }

  /** If the cached start equals the new start, OR the cached end equals the
      new end, the record is skipped: no mail, and the directory is exactly
      as it was. */
  lemma EitherBoundaryMatchSkips(files: Files, env: Env, billID: string, recipients: seq<string>, d: Data,
                                 t: Times, faults: RecordFaults, stored: FileContent)
    requires t.err.None? && !faults.openFails && !faults.readFails
    requires Key(env, billID, d, t) in files
    requires Scanned(files[Key(env, billID, d, t)].data).Some?
    requires Scanned(files[Key(env, billID, d, t)].data).value != []
    requires env.codec.decode(Scanned(files[Key(env, billID, d, t)].data).value) == Some(stored)
    requires Equal(stored.startOutageDateTime, t.start) || Equal(stored.endOutageDateTime, t.stop)
    ensures ReconcileParsed(files, env, billID, recipients, d, t, faults) == (files, AlreadySent)
  {
  }

  /** If both boundaries differ from the cached ones, the record is mailed
      again with the cached sequence plus one. */
  lemma BothBoundariesChangedResends(files: Files, env: Env, billID: string, recipients: seq<string>,
                                     d: Data, t: Times, faults: RecordFaults, stored: FileContent)
    requires t.err.None? && !faults.openFails && !faults.readFails && !faults.mailFails
    requires Key(env, billID, d, t) in files
    requires Scanned(files[Key(env, billID, d, t)].data).Some?
    requires Scanned(files[Key(env, billID, d, t)].data).value != []
    requires env.codec.decode(Scanned(files[Key(env, billID, d, t)].data).value) == Some(stored)
    requires !Equal(stored.startOutageDateTime, t.start) && !Equal(stored.endOutageDateTime, t.stop)
    ensures ReconcileParsed(files, env, billID, recipients, d, t, faults).1.Sent?
    ensures ReconcileParsed(files, env, billID, recipients, d, t, faults).1.sequence == Increment(stored.sequence)
  {
  }

  /** A cache file that cannot be read back, or whose bytes do not decode,
      makes the record be skipped with no mail and no write. */
  lemma UnreadableRecordSkips(files: Files, env: Env, billID: string, recipients: seq<string>, d: Data,
                              t: Times, faults: RecordFaults)
    requires t.err.None? && !faults.openFails
    requires Key(env, billID, d, t) in files
    requires var data := files[Key(env, billID, d, t)].data;
             || faults.readFails
             || Scanned(data).None?
             || (Scanned(data).value != [] && env.codec.decode(Scanned(data).value).None?)
    ensures ReconcileParsed(files, env, billID, recipients, d, t, faults).0 == files
    ensures ReconcileParsed(files, env, billID, recipients, d, t, faults).1 in {ScanFailed, DecodeFailed}
  {
  }

  /** The cache is written only after the mail went out: any change to an
      existing file means the record was Sent and then either cached or
      torn by a failing write, and the only file that may appear is the
      record's own, empty unless the record was Sent and written to. */
  lemma CacheChangesOnlyAfterMail(files: Files, env: Env, billID: string, recipients: seq<string>,
                                  d: Data, t: Times, faults: RecordFaults)
    ensures var (after, out) := ReconcileParsed(files, env, billID, recipients, d, t, faults);
            && (forall p :: p in files ==> p in after)
            && (forall p :: p in files && after[p] != files[p] ==>
                  out.Sent? && !faults.mailFails && p == Key(env, billID, d, t)
                  && (out.cached || faults.writeFails))
            && (forall p :: p in after && p !in files ==>
                  p == Key(env, billID, d, t)
                  && (after[p].data != [] ==> out.Sent? && (out.cached || faults.writeFails)))
  {
    var r := ReconcileParsed(files, env, billID, recipients, d, t, faults);
    if t.err.Some? || faults.openFails {
      assert r.0 == files;
    } else {
      var path := Key(env, billID, d, t);
      var dir := Opened(files, path, env.now);
      var scanned := Scanned(dir[path].data);
      if faults.readFails || scanned.None? {
        assert r.0 == dir;
      } else {
        assert r == Respond(dir, path, scanned.value, env, billID, recipients, d, t, faults);
        match Decide(env.codec, scanned.value, t.start, t.stop)
        case Undecodable =>
          assert r.0 == dir;
        case Unchanged =>
          assert r.0 == dir;
        case Notify(sequence) =>
          assert r == Deliver(dir, path, sequence, env, billID, recipients, d, t, faults);
          DeliverChangesOnlyAfterMail(dir, path, sequence, env, billID, recipients, d, t, faults);
      }
    }
  }

  /** Mailing and writing change only the record's own file, and only
      after the mail went out and a write was attempted. */
  lemma DeliverChangesOnlyAfterMail(dir: Files, path: string, sequence: Uint, env: Env, billID: string,
                                    recipients: seq<string>, d: Data, t: Times, faults: RecordFaults)
    requires path in dir
    ensures var (after, out) := Deliver(dir, path, sequence, env, billID, recipients, d, t, faults);
            && after.Keys == dir.Keys
            && (forall p :: p in dir && after[p] != dir[p] ==>
                  out.Sent? && !faults.mailFails && p == path && (out.cached || faults.writeFails))
            && (out.Sent? && !out.cached && !faults.writeFails ==> after == dir)
  {
  }

  /** A mail failure sends nothing and leaves every cache file as it was. */
  lemma MailFailureKeepsCache(files: Files, env: Env, billID: string, recipients: seq<string>, d: Data,
                              t: Times, faults: RecordFaults)
    requires faults.mailFails
    ensures var (after, out) := ReconcileParsed(files, env, billID, recipients, d, t, faults);
            !out.Sent? && forall p :: p in files ==> p in after && after[p] == files[p]
  {
    CacheChangesOnlyAfterMail(files, env, billID, recipients, d, t, faults);
  }

  // ---------------------------------------------------------------------
  // Writing a record and reading it back

  /** A record written over a file no longer than its encoding reads back,
      through the scanning loop and json.Unmarshal, as the same record. */
  lemma WrittenRecordReadsBack(files: Files, path: string, f: FileContent, codec: Codec, now: int)
    requires Lawful(codec) && path in files && codec.encode(f).Some?
    requires |files[path].data| <= |codec.encode(f).value| < MaxScanTokenSize
    ensures var after := Written(files, path, f, codec, false, 0, now).0;
            && Scanned(after[path].data) == Some(codec.encode(f).value)
            && codec.decode(codec.encode(f).value) == Some(f)
  {
    var b := codec.encode(f).value;
    assert EncodedShape(b);
    ScannedSingleLine(b);
  }

  /** Write does not truncate: a record whose encoding is shorter than the
      record already in the file leaves the old record's tail behind it, and
      the file no longer decodes. */
  lemma ShorterRewriteLeavesStaleTail(files: Files, path: string, f: FileContent, codec: Codec, now: int)
    requires Lawful(codec) && path in files && codec.encode(f).Some?
    requires EncodedShape(files[path].data)
    requires |codec.encode(f).value| < |files[path].data| < MaxScanTokenSize
    ensures var data := Written(files, path, f, codec, false, 0, now).0[path].data;
            && |data| == |files[path].data|
            && Scanned(data) == Some(data)
            && codec.decode(data).None?
  {
    var b, previous := codec.encode(f).value, files[path].data;
    var tail := previous[|b|..];
    var data := Written(files, path, f, codec, false, 0, now).0[path].data;
    assert data == b + tail;
    assert EncodedShape(b);
    assert NewLine !in data by {
      forall k | 0 <= k < |data| ensures data[k] != NewLine {
        if k >= |b| { assert data[k] == previous[k]; }
      }
    }
    assert data[|data| - 1] == CloseBrace;
    ScannedSingleLine(data);
    assert tail[|tail| - 1] == CloseBrace;
    assert !AllJsonSpace(tail);
  }

  /** A record Sent with sequence `s` and cached left its cache file opened
      and written with the record of sequence `s`, and nothing else. */
  lemma SentCachedWrote(files: Files, env: Env, billID: string, recipients: seq<string>, d: Data, t: Times,
                        faults: RecordFaults, s: Uint)
    requires ReconcileParsed(files, env, billID, recipients, d, t, faults).1 == Sent(s, true)
    ensures t.err.None? && !faults.openFails && !faults.mailFails && !faults.writeFails
    ensures var path := Key(env, billID, d, t);
            ReconcileParsed(files, env, billID, recipients, d, t, faults).0
            == Written(Opened(files, path, env.now), path, Converted(d, t, billID, recipients, s),
                       env.codec, false, 0, env.now).0
  {
    var path := Key(env, billID, d, t);
    var dir := Opened(files, path, env.now);
    var scanned := Scanned(dir[path].data);
    assert !faults.readFails && scanned.Some?;
    match Decide(env.codec, scanned.value, t.start, t.stop)
    case Undecodable =>
    case Unchanged =>
    case Notify(sequence) =>
      assert Respond(dir, path, scanned.value, env, billID, recipients, d, t, faults)
          == Deliver(dir, path, sequence, env, billID, recipients, d, t, faults);
  }

  /** Once a record has been Sent with sequence `s` and cached over a file no
      longer than its encoding, polling the same record again sends nothing:
      the dedup holds across runs. */
  lemma ResendSuppressed(files: Files, env: Env, billID: string, recipients: seq<string>, d: Data, t: Times,
                         first: RecordFaults, s: Uint, again: RecordFaults, recipients2: seq<string>)
    requires Lawful(env.codec)
    requires ReconcileParsed(files, env, billID, recipients, d, t, first).1 == Sent(s, true)
    requires env.codec.encode(Converted(d, t, billID, recipients, s)).Some?
    requires |env.codec.encode(Converted(d, t, billID, recipients, s)).value| < MaxScanTokenSize
    requires Key(env, billID, d, t) in files ==>
               |files[Key(env, billID, d, t)].data| <= |env.codec.encode(Converted(d, t, billID, recipients, s)).value|
    requires !again.openFails && !again.readFails
    ensures var after := ReconcileParsed(files, env, billID, recipients, d, t, first).0;
            ReconcileParsed(after, env, billID, recipients2, d, t, again) == (after, AlreadySent)
  {
    var path := Key(env, billID, d, t);
    SentCachedWrote(files, env, billID, recipients, d, t, first, s);
    WrittenRecordReadsBack(Opened(files, path, env.now), path, Converted(d, t, billID, recipients, s),
                           env.codec, env.now);
  }

  /** A change of both boundaries after a cached send with sequence `s` is
      mailed with sequence `s` plus one. */
  lemma SequenceAdvances(files: Files, env: Env, billID: string, recipients: seq<string>, d: Data, t: Times,
                         first: RecordFaults, s: Uint,
                         d2: Data, t2: Times, recipients2: seq<string>, second: RecordFaults)
    requires Lawful(env.codec)
    requires ReconcileParsed(files, env, billID, recipients, d, t, first).1 == Sent(s, true)
    requires env.codec.encode(Converted(d, t, billID, recipients, s)).Some?
    requires |env.codec.encode(Converted(d, t, billID, recipients, s)).value| < MaxScanTokenSize
    requires Key(env, billID, d, t) in files ==>
               |files[Key(env, billID, d, t)].data| <= |env.codec.encode(Converted(d, t, billID, recipients, s)).value|
    requires t2.err.None? && Key(env, billID, d2, t2) == Key(env, billID, d, t)
    requires !Equal(t2.start, t.start) && !Equal(t2.stop, t.stop)
    requires !second.openFails && !second.readFails && !second.mailFails
    ensures var after := ReconcileParsed(files, env, billID, recipients, d, t, first).0;
            ReconcileParsed(after, env, billID, recipients2, d2, t2, second).1.Sent?
            && ReconcileParsed(after, env, billID, recipients2, d2, t2, second).1.sequence == Increment(s)
  {
    var path := Key(env, billID, d, t);
    SentCachedWrote(files, env, billID, recipients, d, t, first, s);
    WrittenRecordReadsBack(Opened(files, path, env.now), path, Converted(d, t, billID, recipients, s),
                           env.codec, env.now);
    var after := ReconcileParsed(files, env, billID, recipients, d, t, first).0;
    var b := env.codec.encode(Converted(d, t, billID, recipients, s)).value;
    assert Opened(after, path, env.now) == after;
    assert Decide(env.codec, b, t2.start, t2.stop) == Notify(Increment(s));
  }

  /** A send whose record is shorter than the record in the file blocks the
      key: every later poll of a record with that cache file fails to decode
      and is skipped, until the janitor removes the file. */
  lemma StaleTailBlocksKey(files: Files, env: Env, billID: string, recipients: seq<string>, d: Data, t: Times,
                           first: RecordFaults, s: Uint,
                           d2: Data, t2: Times, recipients2: seq<string>, later: RecordFaults)
    requires Lawful(env.codec)
    requires ReconcileParsed(files, env, billID, recipients, d, t, first).1 == Sent(s, true)
    requires Key(env, billID, d, t) in files && EncodedShape(files[Key(env, billID, d, t)].data)
    requires env.codec.encode(Converted(d, t, billID, recipients, s)).Some?
    requires |env.codec.encode(Converted(d, t, billID, recipients, s)).value| < |files[Key(env, billID, d, t)].data|
    requires |files[Key(env, billID, d, t)].data| < MaxScanTokenSize
    requires t2.err.None? && Key(env, billID, d2, t2) == Key(env, billID, d, t)
    requires !later.openFails && !later.readFails
    ensures var after := ReconcileParsed(files, env, billID, recipients, d, t, first).0;
            ReconcileParsed(after, env, billID, recipients2, d2, t2, later) == (after, DecodeFailed)
  {
    var path := Key(env, billID, d, t);
    SentCachedWrote(files, env, billID, recipients, d, t, first, s);
    ShorterRewriteLeavesStaleTail(files, path, Converted(d, t, billID, recipients, s), env.codec, env.now);
    var after := ReconcileParsed(files, env, billID, recipients, d, t, first).0;
    var data := after[path].data;
    assert Opened(after, path, env.now) == after;
    assert Decide(env.codec, data, t2.start, t2.stop) == Undecodable;
  }

  /** The three polls of one outage, from the raw records: first seen, mailed
      with sequence 0 and cached; polled unchanged, skipped; both boundaries
      moved, mailed with sequence 1. */
  lemma ThreePollScenario(files: Files, env: Env, billID: string, recipients: seq<string>,
                          d: Data, moved: Data, ok: RecordFaults)
    requires Lawful(env.codec)
    requires ok == RecordFaults(false, false, false, false, 0)
    requires ParseTime(d, env.loc).err.None? && ParseTime(moved, env.loc).err.None?
    requires Key(env, billID, d, ParseTime(d, env.loc)) !in files
    requires Key(env, billID, moved, ParseTime(moved, env.loc)) == Key(env, billID, d, ParseTime(d, env.loc))
    requires !Equal(ParseTime(moved, env.loc).start, ParseTime(d, env.loc).start)
    requires !Equal(ParseTime(moved, env.loc).stop, ParseTime(d, env.loc).stop)
    requires env.codec.encode(Converted(d, ParseTime(d, env.loc), billID, recipients, 0)).Some?
    requires |env.codec.encode(Converted(d, ParseTime(d, env.loc), billID, recipients, 0)).value| < MaxScanTokenSize
    ensures var (files1, out1) := Reconcile(files, env, billID, recipients, d, ok);
            var (files2, out2) := Reconcile(files1, env, billID, recipients, d, ok);
            var (files3, out3) := Reconcile(files2, env, billID, recipients, moved, ok);
            && out1 == Sent(0, true)
            && out2 == AlreadySent && files2 == files1
            && out3.Sent? && out3.sequence == 1
  {
    var t, t2 := ParseTime(d, env.loc), ParseTime(moved, env.loc);
    FirstSightingSendsZero(files, env, billID, recipients, d, t, ok);
    var files1 := ReconcileParsed(files, env, billID, recipients, d, t, ok).0;
    ResendSuppressed(files, env, billID, recipients, d, t, ok, 0, ok, recipients);
    SequenceAdvances(files, env, billID, recipients, d, t, ok, 0, moved, t2, recipients, ok);
  }

  // ---------------------------------------------------------------------
  // All records of one bill id, and all bill ids of one client

  /** The loop over the fetched records of one bill id; `faults(i)` strikes
      the i-th record. */
  function RunRecords(files: Files, env: Env, billID: string, recipients: seq<string>, data: seq<Data>,
                      faults: nat -> RecordFaults): (r: (Files, seq<Outcome>))
    ensures |r.1| == |data|
    decreases |data|
  {
    if data == [] then (files, [])
    else
      var (before, outcomes) := RunRecords(files, env, billID, recipients, data[..|data| - 1], faults);
      var (after, outcome) := Reconcile(before, env, billID, recipients, data[|data| - 1], faults(|data| - 1));
      (after, outcomes + [outcome])
  }

  /** No failure stops the loop: every record is reconciled, in order,
      against the directory the records before it left. */
  lemma {:induction false} EachRecordReconciled(files: Files, env: Env, billID: string, recipients: seq<string>,
                                                data: seq<Data>, faults: nat -> RecordFaults, i: nat)
    requires i < |data|
    ensures RunRecords(files, env, billID, recipients, data, faults).1[i]
         == Reconcile(RunRecords(files, env, billID, recipients, data[..i], faults).0,
                      env, billID, recipients, data[i], faults(i)).1
    decreases |data|
  {
    var init := data[..|data| - 1];
    var (before, outcomes) := RunRecords(files, env, billID, recipients, init, faults);
    var last := Reconcile(before, env, billID, recipients, data[|data| - 1], faults(|data| - 1)).1;
    assert RunRecords(files, env, billID, recipients, data, faults).1 == outcomes + [last];
    if i < |data| - 1 {
      EachRecordReconciled(files, env, billID, recipients, init, faults, i);
      InitPrefix(data, i);
    }
  }

  /** Helper: dropping the last element keeps the earlier ones. */
  lemma InitPrefix<T>(s: seq<T>, i: nat)
    requires i < |s| - 1
    ensures s[..|s| - 1][..i] == s[..i] && s[..|s| - 1][i] == s[i]
  {
  }

  /** The loop over the records of one bill id (func.go:63-122). */
  method ProcessRecords(store: CacheStore, env: Env, billID: string, recipients: seq<string>, data: seq<Data>,
                        faults: nat -> RecordFaults)
    returns (outcomes: seq<Outcome>)
    modifies store
    ensures (store.files, outcomes) == RunRecords(old(store.files), env, billID, recipients, data, faults)
  {
    outcomes := [];
    var i := 0;
    while i < |data|
      invariant 0 <= i <= |data|
      invariant (store.files, outcomes) == RunRecords(old(store.files), env, billID, recipients, data[..i], faults)
    {
      var outcome := ReconcileRecord(store, env, billID, recipients, data[i], faults(i));
      outcomes := outcomes + [outcome];
      RunRecordsStep(old(store.files), env, billID, recipients, data, faults, i);
      i := i + 1;
    }
    assert data[..|data|] == data;
  }

  /** Helper: one more record extends the run by its reconciliation. */
  lemma RunRecordsStep(files: Files, env: Env, billID: string, recipients: seq<string>, data: seq<Data>,
                       faults: nat -> RecordFaults, i: nat)
    requires i < |data|
    ensures var (before, outcomes) := RunRecords(files, env, billID, recipients, data[..i], faults);
            var (after, outcome) := Reconcile(before, env, billID, recipients, data[i], faults(i));
            RunRecords(files, env, billID, recipients, data[..i + 1], faults) == (after, outcomes + [outcome])
  {
    assert data[..i + 1][..i] == data[..i];
  }

  /** What happened to one bill id: PlannedBlackOut failed, or the outcomes
      of its records. */
  datatype BillOutcome = FetchFailed | Processed(outcomes: seq<Outcome>)

  /** The loop over one client's bill ids (func.go:56-125); `fetch(j)` is
      PlannedBlackOut's answer for the j-th bill id and `faults(j, i)`
      strikes its i-th record. */
  function RunBills(files: Files, env: Env, billIDs: seq<string>, recipients: seq<string>,
                    fetch: nat -> Option<seq<Data>>, faults: (nat, nat) -> RecordFaults)
    : (r: (Files, seq<BillOutcome>))
    ensures |r.1| == |billIDs|
    decreases |billIDs|
  {
    if billIDs == [] then (files, [])
    else
      var j: nat := |billIDs| - 1;
      var (before, outcomes) := RunBills(files, env, billIDs[..j], recipients, fetch, faults);
      match fetch(j)
      case None => (before, outcomes + [FetchFailed])
      case Some(data) =>
        var (after, recordOutcomes) := RunRecords(before, env, billIDs[j], recipients, data, (i: nat) => faults(j, i));
        (after, outcomes + [Processed(recordOutcomes)])
  }

  /** Helper: one more bill id extends the run by its fetch and records. */
  lemma RunBillsStep(files: Files, env: Env, billIDs: seq<string>, recipients: seq<string>,
                     fetch: nat -> Option<seq<Data>>, faults: (nat, nat) -> RecordFaults, j: nat)
    requires j < |billIDs|
    ensures var (before, outcomes) := RunBills(files, env, billIDs[..j], recipients, fetch, faults);
            var next := RunBills(files, env, billIDs[..j + 1], recipients, fetch, faults);
            && (fetch(j).None? ==> next == (before, outcomes + [FetchFailed]))
            && (fetch(j).Some? ==>
                  var (after, recordOutcomes) :=
                    RunRecords(before, env, billIDs[j], recipients, fetch(j).value, (i: nat) => faults(j, i));
                  next == (after, outcomes + [Processed(recordOutcomes)]))
  {
    assert billIDs[..j + 1][..j] == billIDs[..j];
  }

  /** The j-th bill id's outcome is a fetch failure exactly when its fetch
      failed, and otherwise holds one outcome per fetched record. */
  lemma {:induction false} RunBillsOutcome(files: Files, env: Env, billIDs: seq<string>, recipients: seq<string>,
                                           fetch: nat -> Option<seq<Data>>, faults: (nat, nat) -> RecordFaults,
                                           j: nat)
    requires j < |billIDs|
    ensures var r := RunBills(files, env, billIDs, recipients, fetch, faults).1;
            && (r[j].FetchFailed? <==> fetch(j).None?)
            && (fetch(j).Some? ==> |r[j].outcomes| == |fetch(j).value|)
    decreases |billIDs|
  {
    var last: nat := |billIDs| - 1;
    var outcomes := RunBills(files, env, billIDs[..last], recipients, fetch, faults).1;
    var r := RunBills(files, env, billIDs, recipients, fetch, faults).1;
    assert r[..last] == outcomes;
    if j < last {
      RunBillsOutcome(files, env, billIDs[..last], recipients, fetch, faults, j);
      assert r[j] == r[..last][j];
    }
  }

  /** A failed fetch skips only its own bill id: the directory is left as
      the earlier bill ids left it. */
  lemma FetchFailureSkipsOnlyThatBill(files: Files, env: Env, billIDs: seq<string>, recipients: seq<string>,
                                      fetch: nat -> Option<seq<Data>>, faults: (nat, nat) -> RecordFaults)
    requires |billIDs| > 0 && fetch(|billIDs| - 1).None?
    ensures RunBills(files, env, billIDs, recipients, fetch, faults).0
         == RunBills(files, env, billIDs[..|billIDs| - 1], recipients, fetch, faults).0
  {
  }

  /** The loop over one client's bill ids. */
  method ProcessBills(store: CacheStore, env: Env, billIDs: seq<string>, recipients: seq<string>,
                      fetch: nat -> Option<seq<Data>>, faults: (nat, nat) -> RecordFaults)
    returns (results: seq<BillOutcome>)
    modifies store
    ensures (store.files, results) == RunBills(old(store.files), env, billIDs, recipients, fetch, faults)
  {
    results := [];
    var j := 0;
    while j < |billIDs|
      invariant 0 <= j <= |billIDs|
      invariant (store.files, results) == RunBills(old(store.files), env, billIDs[..j], recipients, fetch, faults)
    {
      RunBillsStep(old(store.files), env, billIDs, recipients, fetch, faults, j);
      var data := fetch(j);
      if data.None? {
        results := results + [FetchFailed];
      } else {
        var outcomes := ProcessRecords(store, env, billIDs[j], recipients, data.value, (i: nat) => faults(j, i));
        results := results + [Processed(outcomes)];
      }
      j := j + 1;
    }
    assert billIDs[..|billIDs|] == billIDs;
  }

  // ---------------------------------------------------------------------
  // The janitor (func.go:12-40)

  /** Whether the sweep deletes the file at `p`: its information could be
      read, it was modified strictly before the cutoff, and os.Remove
      succeeded. */
  predicate Removed(files: Files, p: string, cutoff: int, statFails: string -> bool,
                    removeFails: string -> bool)
    requires p in files
  {
    !statFails(p) && files[p].modTime < cutoff && !removeFails(p)
  }

  /** The directory after one sweep: nothing changes when the directory
      cannot be listed; otherwise every removed file is gone and every other
      file is untouched. */
  function Swept(files: Files, cutoff: int, readDirFails: bool, statFails: string -> bool,
                 removeFails: string -> bool): (r: Files)
    ensures r.Keys <= files.Keys
    ensures forall p :: p in r ==> r[p] == files[p]
    ensures readDirFails ==> r == files
    ensures !readDirFails ==>
              forall p :: p in files ==> (p in r <==> !Removed(files, p, cutoff, statFails, removeFails))
  {
    if readDirFails then files
    else map p | p in files && !Removed(files, p, cutoff, statFails, removeFails) :: files[p]
  }

  /** DeleteCacheFunc's job: delete the cache files last modified before
      now - period. `readDirFails`, `statFails` and `removeFails` stand for
      errors from os.ReadDir, DirEntry.Info and os.Remove. */
  method DeleteCache(store: CacheStore, period: int, now: int, readDirFails: bool,
                     statFails: string -> bool, removeFails: string -> bool)
    modifies store
    ensures store.files == Swept(old(store.files), now - period, readDirFails, statFails, removeFails)
  {
    var cutoff := now - period;
    if readDirFails {
      return;
    }
    ghost var before := store.files;
    var entries := store.files.Keys;
    while entries != {}
      invariant entries <= before.Keys
      invariant store.files == map p | p in before && (p in entries || !Removed(before, p, cutoff, statFails, removeFails))
                                   :: before[p]
      decreases entries
    {
      var p :| p in entries;
      entries := entries - {p};
      if !statFails(p) && store.files[p].modTime < cutoff && !removeFails(p) {
        store.files := store.files - {p};
      }
    }
  }

  /** With no errors, the sweep keeps exactly the files modified at or
      after the cutoff, unchanged. */
  lemma SweepKeepsExactlyRecent(files: Files, cutoff: int, statFails: string -> bool,
                                removeFails: string -> bool)
    requires forall p :: !statFails(p) && !removeFails(p)
    ensures var r := Swept(files, cutoff, false, statFails, removeFails);
            && (forall p :: p in r <==> p in files && files[p].modTime >= cutoff)
            && (forall p :: p in r ==> r[p] == files[p])
  {
  }

  /** An unreadable directory loses nothing; a file whose information or
      removal fails stays, and the sweep carries on with the others. */
  lemma SweepFailuresKeepFiles(files: Files, cutoff: int, readDirFails: bool, statFails: string -> bool,
                               removeFails: string -> bool, p: string)
    requires p in files
    requires readDirFails || statFails(p) || removeFails(p) || files[p].modTime >= cutoff
    ensures var r := Swept(files, cutoff, readDirFails, statFails, removeFails);
            && p in r && r[p] == files[p]
            && (!readDirFails ==> forall q :: q in files && Removed(files, q, cutoff, statFails, removeFails) ==> q !in r)
  {
  }

  const Hour: int := 3_600 * NanosPerSecond

  /** A file modified 48 hours ago and one modified now, with a 24-hour
      retention: exactly the older one is deleted. */
  lemma SweepScenario(now: int, statFails: string -> bool, removeFails: string -> bool)
    requires forall p :: !statFails(p) && !removeFails(p)
    ensures var files := map["old.cache" := FileEntry([], now - 48 * Hour), "new.cache" := FileEntry([], now)];
            Swept(files, now - 24 * Hour, false, statFails, removeFails)
              == map["new.cache" := FileEntry([], now)]
  {
    var files := map["old.cache" := FileEntry([], now - 48 * Hour), "new.cache" := FileEntry([], now)];
    SweepKeepsExactlyRecent(files, now - 24 * Hour, statFails, removeFails);
  }
}
