/** The cached record of one outage and the file that holds it (file.go). */
module Cache {
  import opened Text
  import opened Clock
  import opened Lines

  /** Go's `uint` on a 64-bit platform. */
  const UintLimit: int := 0x1_0000_0000_0000_0000
  type Uint = n: int | 0 <= n < UintLimit

  /** FileContent: what is stored, as JSON, in one cache file. */
  datatype FileContent = FileContent(
    uid: string,
    billID: string,
    sequence: Uint,
    outageNumber: int,
    farsiOutageDate: string,
    startOutageDateTime: Instant,
    endOutageDateTime: Instant,
    recipients: seq<string>,
    address: string,
    reasonOutage: string)
  {
    /** (*FileContent).FileName: the cache file name of this record's key. */
    function Name(): (name: string)
      ensures ParseFileName(name) == Some((billID, Dec(outageNumber), DateOnly(startOutageDateTime)))
    {
      FileNameRoundTrip(billID, outageNumber, startOutageDateTime);
      FileName(billID, outageNumber, startOutageDateTime)
    }

    /** (*FileContent).Summary. */
    function Summary(): (s: string)
      ensures |s| == |SummaryPrefix| + |address|
      ensures s[..|SummaryPrefix|] == SummaryPrefix && s[|SummaryPrefix|..] == address
    {
      SummaryText(address)
    }

    /** (*FileContent).Description: the event details on one line. */
    function Description(persianText: Instant -> string): (s: string)
      ensures '\n' !in s
      ensures '\\' !in DescriptionLines(address, startOutageDateTime, endOutageDateTime, reasonOutage, persianText)
              ==> UnescapeNewlines(s)
                  == DescriptionLines(address, startOutageDateTime, endOutageDateTime, reasonOutage, persianText)
    {
      DescriptionText(address, startOutageDateTime, endOutageDateTime, reasonOutage, persianText)
    }
  }

  /** The cache file name of the key (bill id, outage number, start date),
      "{bill_id}_{outage_number}_{YYYY-MM-DD}.json", the date taken on the
      instant's own zone. */
  function FileName(billID: string, outageNumber: int, date: Instant): (name: string)
    ensures |name| > |billID| + 5
    ensures name[..|billID| + 1] == billID + "_" && name[|name| - 5..] == ".json"
  {
    billID + "_" + Dec(outageNumber) + "_" + DateOnly(date) + ".json"
  }

  /** Where LoadOrCreateFile opens a record: the directory text immediately
      followed by the file name, with no separator inserted. */
  function CachePath(cachePathDir: string, billID: string, outageNumber: int, date: Instant): (path: string)
    ensures |path| > |cachePathDir| && path[..|cachePathDir|] == cachePathDir
    ensures path[|cachePathDir|..] == FileName(billID, outageNumber, date)
  {
    cachePathDir + FileName(billID, outageNumber, date)
  }

  /** In one cache directory, records with different keys never share a
      cache file. */
  lemma CachePathInjective(dir: string, b1: string, n1: int, d1: Instant, b2: string, n2: int, d2: Instant)
    requires CachePath(dir, b1, n1, d1) == CachePath(dir, b2, n2, d2)
    ensures b1 == b2 && n1 == n2 && DateOnly(d1) == DateOnly(d2)
  {
    var p := CachePath(dir, b1, n1, d1);
    assert FileName(b1, n1, d1) == p[|dir|..] == FileName(b2, n2, d2);
    FileNameInjective(b1, n1, d1, b2, n2, d2);
  }

  /** Index of the last occurrence of `c` in `s`. */
  function LastIndexOf(s: string, c: char): (r: Option<nat>)
    ensures r.Some? ==> r.value < |s| && s[r.value] == c && c !in s[r.value + 1..]
    ensures r.None? ==> c !in s
  {
    if s == [] then None
    else if s[|s| - 1] == c then Some(|s| - 1)
    else
      var r := LastIndexOf(s[..|s| - 1], c);
      assert s == s[..|s| - 1] + [s[|s| - 1]];
      r
  }

  /** The last `c` of `p + [c] + q` is the joining one when `q` holds none. */
  lemma {:induction false} LastIndexOfJoin(p: string, c: char, q: string)
    requires c !in q
    ensures LastIndexOf(p + [c] + q, c) == Some(|p|)
    decreases |q|
  {
    var s := p + [c] + q;
    if q != [] {
      var init := q[..|q| - 1];
      assert s[|s| - 1] == q[|q| - 1];
      assert s[..|s| - 1] == p + [c] + init;
      LastIndexOfJoin(p, c, init);
    }
  }

  /** Reads a cache file name back into (bill id, outage number text, date
      text), splitting at the last two underscores. */
  function ParseFileName(name: string): Option<(string, string, string)>
  {
    if |name| < 5 || name[|name| - 5..] != ".json" then None
    else
      var stem := name[..|name| - 5];
      match LastIndexOf(stem, '_')
      case None => None
      case Some(j) =>
        var head := stem[..j];
        match LastIndexOf(head, '_')
        case None => None
        case Some(i) => Some((head[..i], head[i + 1..], stem[j + 1..]))
  }

  /** The file name determines its key: parsing it gives back the bill id,
      the printed outage number and the printed date. */
  lemma FileNameRoundTrip(billID: string, outageNumber: int, date: Instant)
    ensures ParseFileName(FileName(billID, outageNumber, date))
         == Some((billID, Dec(outageNumber), DateOnly(date)))
  {
    NumeralLacks(Dec(outageNumber), '_');
    NumeralLacks(DateOnly(date), '_');
    ParseJoinedName(billID, Dec(outageNumber), DateOnly(date));
  }

  /** ParseFileName undoes the joining of three parts with '_' and ".json"
      when the last two parts hold no '_'. */
  lemma ParseJoinedName(billID: string, number: string, day: string)
    requires '_' !in number && '_' !in day
    ensures ParseFileName(billID + "_" + number + "_" + day + ".json") == Some((billID, number, day))
  {
    var name := billID + "_" + number + "_" + day + ".json";
    var head := billID + "_" + number;
    var stem := head + "_" + day;
    assert name == stem + ".json";
    assert name[..|name| - 5] == stem && name[|name| - 5..] == ".json";
    LastIndexOfJoin(head, '_', day);
    assert stem == head + ['_'] + day;
    assert stem[..|head|] == head && stem[|head| + 1..] == day;
    LastIndexOfJoin(billID, '_', number);
    assert head == billID + ['_'] + number;
    assert head[..|billID|] == billID && head[|billID| + 1..] == number;
  }

  /** Distinct keys never share a cache file. */
  lemma FileNameInjective(b1: string, n1: int, d1: Instant, b2: string, n2: int, d2: Instant)
    requires FileName(b1, n1, d1) == FileName(b2, n2, d2)
    ensures b1 == b2 && n1 == n2 && DateOnly(d1) == DateOnly(d2)
  {
    FileNameRoundTrip(b1, n1, d1);
    FileNameRoundTrip(b2, n2, d2);
    DecInjective(n1, n2);
  }

  const SummaryPrefix: string := "Power Outage on "

  /** "Power Outage on %s" with the address. */
  function SummaryText(address: string): string
  {
    SummaryPrefix + address
  }

  /** The multi-line details text before its newlines are escaped. */
  function DescriptionLines(address: string, start: Instant, end: Instant, reason: string,
                            persianText: Instant -> string): string
  {
    "Blackout!\nAddress: " + address + "\nDate: " + persianText(start)
      + "\nFrom " + TimeOnly(start) + " until " + TimeOnly(end) + "\nReason: " + reason
  }

  /** The details text with every newline replaced by the two characters
      backslash and 'n', so that it fits one iCalendar content line.
      `persianText(t)` is ptime.New(t).Format("yyyy/MM/dd"). */
  function DescriptionText(address: string, start: Instant, end: Instant, reason: string,
                           persianText: Instant -> string): (s: string)
    ensures '\n' !in s
    ensures '\\' !in DescriptionLines(address, start, end, reason, persianText)
            ==> UnescapeNewlines(s) == DescriptionLines(address, start, end, reason, persianText)
  {
    var lines := DescriptionLines(address, start, end, reason, persianText);
    if '\\' !in lines then UnescapeEscape(lines); EscapeNewlines(lines)
    else EscapeNewlines(lines)
  }

  // ---------------------------------------------------------------------
  // Serialisation

  const CloseBrace: byte := 125

  predicate IsJsonSpace(b: byte)
  {
    b == 32 || b == 9 || b == NewLine || b == CarriageReturn
  }

  predicate AllJsonSpace(s: seq<byte>)
  {
    forall i :: 0 <= i < |s| ==> IsJsonSpace(s[i])
  }

  /** encoding/json for FileContent, kept abstract: `encode` is json.Marshal
      (it fails, for instance, on a time outside years 0 to 9999), `decode`
      is json.Unmarshal into a fresh record. */
  datatype Codec = Codec(encode: FileContent -> Option<seq<byte>>,
                         decode: seq<byte> -> Option<FileContent>)

  /** What json.Marshal output looks like: one object, so it ends with '}',
      and never a raw newline (newlines inside strings are escaped). */
  predicate EncodedShape(b: seq<byte>)
  {
    |b| > 0 && b[|b| - 1] == CloseBrace && NewLine !in b
  }

  /** The facts about encoding/json the model relies on: a marshalled record
      has the shape above and unmarshals to the same record (every field is
      stored under its own key), and an object followed by anything other
      than white space is rejected. */
  ghost predicate Lawful(c: Codec)
  {
    && (forall f :: c.encode(f).Some? ==>
          EncodedShape(c.encode(f).value) && c.decode(c.encode(f).value) == Some(f))
    && (forall f, tail :: c.encode(f).Some? && !AllJsonSpace(tail) ==>
          c.decode(c.encode(f).value + tail).None?)
  }

  // ---------------------------------------------------------------------
  // The cache directory

  /** One cache file: its bytes and its modification time (Unix nanoseconds). */
  datatype FileEntry = FileEntry(data: seq<byte>, modTime: int)

  /** The cache directory: file path to file. */
  type Files = map<string, FileEntry>

  datatype WriteError = EncodeFailed | IOFailed

  /** file.WriteAt(content, 0): the first |content| bytes are replaced, later
      bytes stay, and the file is not truncated. */
  function WriteAt(before: seq<byte>, content: seq<byte>): (r: seq<byte>)
    ensures |r| == if |content| < |before| then |before| else |content|
    ensures r[..|content|] == content
    ensures forall i :: |content| <= i < |before| ==> r[i] == before[i]
  {
    if |content| >= |before| then content else content + before[|content|..]
  }

  /** The directory after os.OpenFile(path, O_RDWR|O_CREATE) succeeded: a
      missing file now exists, empty, modified `now`; an existing one is
      untouched. */
  function Opened(files: Files, path: string, now: int): (r: Files)
    ensures path in r && r.Keys == files.Keys + {path}
    ensures forall p :: p in files ==> r[p] == files[p]
    ensures path !in files ==> r[path] == FileEntry([], now)
  {
    if path in files then files else files[path := FileEntry([], now)]
  }

  /** How many bytes of `content` reach the file when the operating system
      reports an error after writing `torn` of them (io.WriterAt may write
      a prefix before it fails). */
  function TornLength(content: seq<byte>, torn: nat): (n: nat)
    ensures n <= |content| && n <= torn
    ensures n == torn || n == |content|
  {
    if torn < |content| then torn else |content|
  }

  /** The directory and error after (*FileContent).Write(file at path).
      `ioFails` stands for an error from WriteAt, after which the first
      `torn` bytes of the content (at most all of them) may have reached
      the file; a write of no bytes leaves the file as it was. */
  function Written(files: Files, path: string, f: FileContent, codec: Codec, ioFails: bool, torn: nat,
                   now: int)
    : (r: (Files, Option<WriteError>))
    requires path in files
    ensures r.1 == Some(EncodeFailed) <==> codec.encode(f).None?
    ensures r.1 == Some(EncodeFailed) ==> r.0 == files
    ensures r.1.None? <==> codec.encode(f).Some? && !ioFails
    ensures r.0.Keys == files.Keys
    ensures forall p :: p in files && p != path ==> r.0[p] == files[p]
    ensures r.0[path] != files[path] ==> r.0[path].modTime == now
    ensures r.1.None? ==>
              var content := codec.encode(f).value;
              && |r.0[path].data| == (if |content| < |files[path].data| then |files[path].data| else |content|)
              && r.0[path].data[..|content|] == content
              && forall i :: |content| <= i < |files[path].data| ==> r.0[path].data[i] == files[path].data[i]
    ensures r.1 == Some(IOFailed) ==>
              var n := TornLength(codec.encode(f).value, torn);
              && |r.0[path].data| == (if n < |files[path].data| then |files[path].data| else n)
              && r.0[path].data[..n] == codec.encode(f).value[..n]
              && forall i :: n <= i < |files[path].data| ==> r.0[path].data[i] == files[path].data[i]
  {
    match codec.encode(f)
    case None => (files, Some(EncodeFailed))
    case Some(content) =>
      if ioFails then
        var n := TornLength(content, torn);
        if n == 0 then (files, Some(IOFailed))
        else (files[path := FileEntry(WriteAt(files[path].data, content[..n]), now)], Some(IOFailed))
      else (files[path := FileEntry(WriteAt(files[path].data, content), now)], None)
  }

  /** The cache directory as the program sees it through the file system. */
  class CacheStore {
    var files: Files

    constructor (initial: Files)
      ensures files == initial
    {
      files := initial;
    }

    /** LoadOrCreateFile: opens, read-write, the file at cachePathDir +
        FileName(billID, outageNumber, date), creating it when missing.
        `openFails` stands for an error from the operating system. */
    method LoadOrCreateFile(cachePathDir: string, billID: string, outageNumber: int, date: Instant,
                            openFails: bool, now: int)
      returns (path: string, ok: bool)
      modifies this
      ensures path == cachePathDir + FileName(billID, outageNumber, date)
      ensures ok == !openFails
      ensures files == if ok then Opened(old(files), path, now) else old(files)
    {
      path := cachePathDir + FileName(billID, outageNumber, date);
      ok := !openFails;
      if ok && path !in files {
        files := files[path := FileEntry([], now)];
      }
    }

    /** (*FileContent).Write: serialise the record and write it at offset 0
        of the open file. A serialisation error leaves the file untouched;
        `ioFails` stands for an error from the operating system, after
        which the first `torn` bytes may have been written. */
    method Write(f: FileContent, path: string, codec: Codec, ioFails: bool, torn: nat, now: int)
      returns (err: Option<WriteError>)
      requires path in files
      modifies this
      ensures (files, err) == Written(old(files), path, f, codec, ioFails, torn, now)
      ensures codec.encode(f).None? ==> err == Some(EncodeFailed) && files == old(files)
      ensures err.None? ==> files[path].data[..|codec.encode(f).value|] == codec.encode(f).value
      ensures err.None? ==> |files[path].data| >= |old(files)[path].data|
    {
      var content := codec.encode(f);
      if content.None? {
        return Some(EncodeFailed);
      }
      if ioFails {
        var n := TornLength(content.value, torn);
        if n > 0 {
          files := files[path := FileEntry(WriteAt(files[path].data, content.value[..n]), now)];
        }
        return Some(IOFailed);
      }
      files := files[path := FileEntry(WriteAt(files[path].data, content.value), now)];
      err := None;
    }
  }
}
