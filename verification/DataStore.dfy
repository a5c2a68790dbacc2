/** A worker's data directory and the transfers to and from it: upload with checksum, the presence check
    that lets a sender skip a file, and download.
    A checksum stands for the bytes it was computed from: SHA-256 is taken as collision-free. Requests and
    responses arrive intact or fail as a whole (they are signed); what fails is recorded in a `Fault`. */
module DataStore {
  import opened Wrappers
  import opened ByteShuffle

  type Bytes = seq<bv8>

  /** The value of a checksum header: absent, the hash of some bytes, or text that is no such hash. */
  datatype Checksum = NoChecksum | HashOf(data: Bytes) | OtherText

  type Store = map<string, Bytes>

  predicate ValidName(s: string) {
    s != "" && s != "." && s != ".." && forall k | 0 <= k < |s| :: s[k] != '/' && s[k] != '\\' && s[k] != '\0'
  }

  function PartOf(name: string): string {
    name + ".part"
  }

  datatype Upload = Upload(name: string, checksum: Checksum, encoded: bool, body: Bytes)

  /** What goes wrong while an upload is handled; `ReplyLost` strikes after the work is done. */
  datatype Fault = NoFault | BodyBroken | CreateFails | WriteFails(written: Bytes) | RenameFails | ReplyLost

  datatype Rejection = InvalidName | MissingChecksum | BadBody | NotWritten | Mismatch | NoReply | Unreadable

  /** The original bytes an upload carries, if its body can be decoded. */
  function Content(c: Codec<bv8>, u: Upload): Option<Bytes> {
    if u.encoded then UnpackFrame(c, u.body) else Some(u.body)
  }

  /** The file system of the worker as the handlers change it: every method is one handler. */
  class TransportServer {
    var files: Store
    const codec: Codec<bv8>

    constructor (codec: Codec<bv8>, files: Store)
      ensures this.files == files && this.codec == codec
    {
      this.files, this.codec := files, codec;
    }

    method Remove(path: string)
      modifies this
      ensures files == old(files) - {path}
    {
      files := files - {path};
    }

    /** Renames a file over another, if the system lets it. */
    method Rename(from: string, to: string, fails: bool) returns (ok: bool)
      requires from in files && from != to
      modifies this
      ensures ok == !fails
      ensures files == if ok then old(files)[to := old(files)[from]] - {from} else old(files)
    {
      if fails {
        return false;
      }
      files := files[to := files[from]] - {from};
      ok := true;
    }

    /** Writes the body of an upload under its part name. */
    method WritePart(u: Upload, fault: Fault) returns (r: Result<Bytes, Rejection>)
      modifies this
      ensures r.Ok? <==> !fault.BodyBroken? && !fault.CreateFails? && !fault.WriteFails? && Content(codec, u).Some?
      ensures r.Ok? ==> r.value == Content(codec, u).value && files == old(files)[PartOf(u.name) := r.value]
      ensures r.Err? ==> files == AfterFailedWrite(codec, old(files), u, fault)
      ensures r.Err? ==>
                r.error == if Content(codec, u).Some? && (fault.CreateFails? || (u.encoded && fault.WriteFails?))
                           then NotWritten else BadBody
    {
      var part := PartOf(u.name);
      if u.encoded {
        if fault.BodyBroken? {
          return Err(BadBody);
        }
        var data := UnpackFrame(codec, u.body);
        if data.None? {
          return Err(BadBody);
        }
        if fault.CreateFails? {
          return Err(NotWritten);
        }
        if fault.WriteFails? {
          files := files[part := fault.written];
          return Err(NotWritten);
        }
        files := files[part := data.value];
        r := Ok(data.value);
      } else {
        if fault.CreateFails? {
          return Err(NotWritten);
        }
        files := files[part := if fault.WriteFails? then fault.written else u.body];
        if fault.BodyBroken? || fault.WriteFails? {
          Remove(part);
          return Err(BadBody);
        }
        r := Ok(u.body);
      }
    }

    /** Stores an upload: body to the part name, checksum compared, then renamed into place. */
    method HandleUpload(u: Upload, fault: Fault) returns (r: Result<Checksum, Rejection>)
      modifies this
      ensures r.Ok? <==> Accepts(codec, u, fault)
      ensures r.Ok? ==> r.value == u.checksum && files == Stored(old(files), u.name, u.checksum.data)
      ensures r.Err? ==> files == AfterReject(codec, old(files), u, fault)
      ensures r.Err? && !ValidName(u.name) ==> r.error == InvalidName && files == old(files)
      ensures ValidName(u.name) && u.checksum == NoChecksum ==> r == Err(MissingChecksum) && files == old(files)
      ensures r.Err? && r.error == Mismatch ==> Content(codec, u).Some? && u.checksum != HashOf(Content(codec, u).value)
    {
      if !ValidName(u.name) {
        return Err(InvalidName);
      }
      if u.checksum == NoChecksum {
        return Err(MissingChecksum);
      }
      var part := PartOf(u.name);
      var written := WritePart(u, fault);
      if written.Err? {
        return Err(written.error);
      }
      var got := HashOf(written.value);
      if u.checksum != got {
        Remove(part);
        return Err(Mismatch);
      }
      var renamed := Rename(part, u.name, fault.RenameFails?);
      if !renamed {
        Remove(part);
        return Err(NotWritten);
      }
      r := Ok(got);
    }

    /** Whether the file is there with this content; a bad request says no. */
    method HandleHave(name: string, sum: Checksum) returns (have: bool)
      ensures have <==> Has(files, name, sum)
    {
      if !ValidName(name) || sum == NoChecksum {
        return false;
      }
      if name !in files {
        return false;
      }
      have := HashOf(files[name]) == sum;
    }

    method HandleDownload(name: string, compress: bool) returns (reply: Option<Reply>)
      ensures reply == Served(codec, files, name, compress)
    {
      if !ValidName(name) || name !in files {
        return None;
      }
      var data := files[name];
      reply := Some(Reply(HashOf(data), compress, if compress then PackFrame(codec, data) else data));
    }
  }

  /** A response to a download. */
  datatype Reply = Reply(checksum: Checksum, encoded: bool, body: Bytes)

  function Served(c: Codec<bv8>, files: Store, name: string, compress: bool): Option<Reply> {
    if ValidName(name) && name in files then
      Some(Reply(HashOf(files[name]), compress, if compress then PackFrame(c, files[name]) else files[name]))
    else None
  }

  // ---- what an upload does to the store ----

  /** Both stores hold the same under this name. */
  predicate AgreeAt(a: Store, b: Store, n: string) {
    (n in a <==> n in b) && (n in a ==> a[n] == b[n])
  }

  predicate Accepts(c: Codec<bv8>, u: Upload, fault: Fault) {
    && ValidName(u.name) && (fault.NoFault? || fault.ReplyLost?)
    && Content(c, u).Some? && u.checksum == HashOf(Content(c, u).value)
  }

  function Stored(files: Store, name: string, data: Bytes): Store {
    files[name := data] - {PartOf(name)}
  }

  predicate Has(files: Store, name: string, sum: Checksum) {
    ValidName(name) && sum != NoChecksum && name in files && HashOf(files[name]) == sum
  }

  /** The store after the body could not be put under the part name. */
  function AfterFailedWrite(c: Codec<bv8>, files: Store, u: Upload, fault: Fault): Store {
    if u.encoded then
      if fault.WriteFails? && Content(c, u).Some? then files[PartOf(u.name) := fault.written] else files
    else if fault.CreateFails? then files
    else files - {PartOf(u.name)}
  }

  /** The body was put under the part name. */
  predicate Written(c: Codec<bv8>, u: Upload, fault: Fault) {
    !fault.BodyBroken? && !fault.CreateFails? && !fault.WriteFails? && Content(c, u).Some?
  }

  /** The store after a rejected upload. */
  function AfterReject(c: Codec<bv8>, files: Store, u: Upload, fault: Fault): Store {
    if !ValidName(u.name) || u.checksum == NoChecksum then files
    else if Written(c, u, fault) then files - {PartOf(u.name)}
    else AfterFailedWrite(c, files, u, fault)
  }

  /** Names that may be stored: no path can be written with them. */
  lemma NamesAreNoPaths(s: string)
    ensures ValidName(s) <==> s !in {"", ".", ".."} && '/' !in s && '\\' !in s && '\0' !in s
  {
  }

  /** An upload is accepted if and only if nothing fails on the way, its name may be stored, and its checksum
      is that of the bytes it carries; then exactly these bytes are stored under the name. */
  lemma AcceptedMeansChecked(c: Codec<bv8>, files: Store, u: Upload, fault: Fault)
    ensures Accepts(c, u, fault) <==>
            && !fault.BodyBroken? && !fault.CreateFails? && !fault.WriteFails? && !fault.RenameFails?
            && ValidName(u.name) && u.checksum.HashOf? && Content(c, u) == Some(u.checksum.data)
    ensures Accepts(c, u, fault) ==>
              var after := Stored(files, u.name, u.checksum.data);
              u.name in after && Content(c, u) == Some(after[u.name]) && PartOf(u.name) !in after
  {
    assert |PartOf(u.name)| > |u.name|;
  }

  /** A rejected upload changes nothing but the part name; the destination in particular stays. */
  lemma RejectedUploadKeepsDestination(c: Codec<bv8>, files: Store, u: Upload, fault: Fault, name: string)
    requires !Accepts(c, u, fault)
    ensures name != PartOf(u.name) ==> AgreeAt(files, AfterReject(c, files, u, fault), name)
    ensures AgreeAt(files, AfterReject(c, files, u, fault), u.name)
  {
    assert |PartOf(u.name)| > |u.name|;
  }

  /** The one case in which a rejected upload leaves a file behind. */
  predicate LeavesPart(c: Codec<bv8>, u: Upload, fault: Fault) {
    ValidName(u.name) && u.checksum != NoChecksum && u.encoded && Content(c, u).Some? && fault.WriteFails?
  }

  /** Nothing is kept on failure, except exactly in that case: a file that was not there before is there
      after a rejected upload if and only if it is the part file of an encoded upload that decoded but could
      not be written. */
  lemma NothingIsKeptUnless(c: Codec<bv8>, files: Store, u: Upload, fault: Fault, name: string)
    requires !Accepts(c, u, fault)
    ensures name !in files && name in AfterReject(c, files, u, fault) <==>
            name !in files && name == PartOf(u.name) && LeavesPart(c, u, fault)
    ensures name in files && !AgreeAt(files, AfterReject(c, files, u, fault), name) ==> name == PartOf(u.name)
  {
  }

  /** A rejected upload that leaves a half-written part file. */
  lemma HalfWrittenPartStays()
    ensures var c := Codec((x: Bytes) => x, (x: Bytes) => Some(x));
            var u := Upload("a", HashOf([1, 2]), true, [1, 2]);
            var after := AfterReject(c, map[], u, WriteFails([1]));
            !Accepts(c, u, WriteFails([1])) && "a.part" in after && after["a.part"] == [1]
  {
    var u := Upload("a", HashOf([1, 2]), true, [1, 2]);
    assert u.name != ".";
    assert PartOf("a") == "a.part";
  }

  // ---- the sender ----

  /** A local file: the name it is sent under and its bytes, if it can be read. */
  datatype File = File(name: string, data: Option<Bytes>)

  /** What happens to one push: whether the presence check gets an answer, and how the upload goes. */
  datatype Luck = Luck(probeFails: bool, fault: Fault)

  /** The compressor gives back what it was given. */
  ghost predicate Lossless(c: Codec<bv8>) {
    forall data: Bytes :: c.decode(c.encode(data)) == Some(data)
  }

  method UploadData(ts: TransportServer, compress: bool, name: string, data: Bytes, fault: Fault)
    returns (r: Result<Checksum, Rejection>)
    requires Lossless(ts.codec)
    modifies ts
    ensures r.Ok? <==> ValidName(name) && fault.NoFault?
    ensures r.Ok? ==> ts.files == Stored(old(ts.files), name, data)
    ensures r.Err? ==> || OnlyPartDiffers(old(ts.files), ts.files, name)
                       || (fault.ReplyLost? && ts.files == Stored(old(ts.files), name, data))
  {
    PackedFrameRoundTrip(ts.codec, data);
    var body := if compress then PackFrame(ts.codec, data) else data;
    var u := Upload(name, HashOf(data), compress, body);
    r := ts.HandleUpload(u, fault);
    if r.Err? {
      RejectionTouchesOnlyPart(ts.codec, old(ts.files), u, fault);
    }
    if fault.ReplyLost? {
      r := Err(NoReply);
    }
  }

  lemma RejectionTouchesOnlyPart(c: Codec<bv8>, files: Store, u: Upload, fault: Fault)
    requires !Accepts(c, u, fault)
    ensures OnlyPartDiffers(files, AfterReject(c, files, u, fault), u.name)
  {
    forall n | n != PartOf(u.name) ensures AgreeAt(files, AfterReject(c, files, u, fault), n) {
      RejectedUploadKeepsDestination(c, files, u, fault, n);
    }
  }

  ghost predicate OnlyPartDiffers(before: Store, after: Store, name: string) {
    forall n | n != PartOf(name) :: AgreeAt(before, after, n)
  }

  /** Uploads a file unless the worker already holds it; tells whether an upload happened. */
  method UploadFileCached(ts: TransportServer, compress: bool, f: File, luck: Luck)
    returns (r: Result<bool, Rejection>)
    requires Lossless(ts.codec)
    modifies ts
    ensures r.Ok? ==> f.data.Some? && ValidName(f.name)
    ensures r.Ok? ==> r.value == (luck.probeFails || !Has(old(ts.files), f.name, HashOf(f.data.value)))
    ensures r.Ok? ==> ts.files == if r.value then Stored(old(ts.files), f.name, f.data.value) else old(ts.files)
    ensures f.data.Some? && ValidName(f.name) && luck.fault.NoFault? ==> r.Ok?
    ensures r.Err? ==> || OnlyPartDiffers(old(ts.files), ts.files, f.name)
                       || (f.data.Some? && luck.fault.ReplyLost? && ts.files == Stored(old(ts.files), f.name, f.data.value))
  {
    if f.data.None? {
      return Err(Unreadable);
    }
    var sum := HashOf(f.data.value);
    var have := ts.HandleHave(f.name, sum);
    if have && !luck.probeFails {
      return Ok(false);
    }
    var sent := UploadData(ts, compress, f.name, f.data.value, luck.fault);
    if sent.Err? {
      return Err(sent.error);
    }
    r := Ok(true);
  }

  /** The store after one cached push that succeeded. */
  function CachedPush(files: Store, name: string, data: Bytes, probeFails: bool): Store {
    if !probeFails && Has(files, name, HashOf(data)) then files else Stored(files, name, data)
  }

  datatype Sent = Sent(name: string, data: Bytes, probeFails: bool)

  function CachedAll(files: Store, sent: seq<Sent>): Store {
    if sent == [] then files
    else
      var last := sent[|sent| - 1];
      CachedPush(CachedAll(files, sent[..|sent| - 1]), last.name, last.data, last.probeFails)
  }

  function UploadAll(files: Store, sent: seq<Sent>): Store {
    if sent == [] then files
    else Stored(UploadAll(files, sent[..|sent| - 1]), sent[|sent| - 1].name, sent[|sent| - 1].data)
  }

  predicate SentAs(f: File, luck: Luck, s: Sent) {
    f.data == Some(s.data) && f.name == s.name && ValidName(s.name) && luck.probeFails == s.probeFails
  }

  ghost predicate AllSent(files: seq<File>, luck: seq<Luck>, sent: seq<Sent>) {
    |sent| == |files| == |luck| && forall k | 0 <= k < |files| :: SentAs(files[k], luck[k], sent[k])
  }

  predicate GoesWell(f: File, luck: Luck) {
    f.data.Some? && ValidName(f.name) && luck.fault.NoFault?
  }

  lemma OneMoreSent(files: seq<File>, luck: seq<Luck>, sent: seq<Sent>, k: nat, s: Sent)
    requires |luck| == |files| && k < |files| && AllSent(files[..k], luck[..k], sent) && SentAs(files[k], luck[k], s)
    ensures AllSent(files[..k + 1], luck[..k + 1], sent + [s])
  {
  }

  lemma CachedOneMore(files: Store, sent: seq<Sent>, s: Sent)
    ensures CachedAll(files, sent + [s]) == CachedPush(CachedAll(files, sent), s.name, s.data, s.probeFails)
  {
    assert (sent + [s])[..|sent|] == sent;
  }

  /** The pushes before a work manifest: shared files, then the shard's frames. Stops at the first that
      fails, and then nothing is run. */
  method PushShard(ts: TransportServer, compress: bool, files: seq<File>, luck: seq<Luck>)
    returns (ok: bool, ghost sent: seq<Sent>)
    requires Lossless(ts.codec) && |luck| == |files|
    modifies ts
    ensures ok ==> AllSent(files, luck, sent) && ts.files == CachedAll(old(ts.files), sent)
    ensures !ok ==> exists k | 0 <= k < |files| :: !GoesWell(files[k], luck[k])
  {
    sent := [];
    for k := 0 to |files|
      invariant AllSent(files[..k], luck[..k], sent) && ts.files == CachedAll(old(ts.files), sent)
    {
      var r := UploadFileCached(ts, compress, files[k], luck[k]);
      if r.Err? {
        assert !GoesWell(files[k], luck[k]);
        return false, sent;
      }
      ghost var s := Sent(files[k].name, files[k].data.value, luck[k].probeFails);
      OneMoreSent(files, luck, sent, k, s);
      CachedOneMore(old(ts.files), sent, s);
      sent := sent + [s];
    }
    assert files[..|files|] == files && luck[..|luck|] == luck;
    ok := true;
  }

  // ---- the cache against uploading everything ----

  /** One push through the cache leaves the store an upload would leave, except that a skipped file leaves
      an old file under its part name, which the upload would have removed. */
  lemma CachedPushIsUploadUnless(files: Store, name: string, data: Bytes, probeFails: bool)
    ensures CachedPush(files, name, data, probeFails) == Stored(files, name, data) <==>
            probeFails || !Has(files, name, HashOf(data)) || PartOf(name) !in files
  {
    if Has(files, name, HashOf(data)) && !probeFails {
      assert files[name := data] == files;
      assert PartOf(name) !in files ==> Stored(files, name, data) == files;
      assert PartOf(name) !in Stored(files, name, data);
    }
  }

  /** A skipped push next to an upload of the same file, on a store with an old part file. */
  lemma SkippedPushKeepsOldPart()
    ensures var files := map["a" := [1], "a.part" := [9]];
            CachedPush(files, "a", [1], false) == files && Stored(files, "a", [1]) == map["a" := [1]]
  {
    assert PartOf("a") == "a.part" && "a" != ".";
  }

  // ---- what becomes of one name over a whole sequence of pushes ----

  /** Push `k` of the sequence really uploads. */
  predicate Uploads(files: Store, sent: seq<Sent>, k: nat)
    requires k < |sent|
  {
    sent[k].probeFails || !Has(CachedAll(files, sent[..k]), sent[k].name, HashOf(sent[k].data))
  }

  /** From push `from` on, a file whose part name is `n` is sent. */
  predicate PartSent(sent: seq<Sent>, n: string, from: nat) {
    exists k | from <= k < |sent| :: PartOf(sent[k].name) == n
  }

  /** From push `from` on, a real upload removes `n` as its part file. */
  predicate Removed(files: Store, sent: seq<Sent>, n: string, from: nat) {
    exists k | from <= k < |sent| :: PartOf(sent[k].name) == n && Uploads(files, sent, k)
  }

  /** One past the last push under this name, 0 if there is none. */
  function Since(sent: seq<Sent>, n: string): nat {
    if sent == [] then 0
    else if sent[|sent| - 1].name == n then |sent|
    else Since(sent[..|sent| - 1], n)
  }

  lemma {:induction false} SinceIs(sent: seq<Sent>, n: string)
    ensures Since(sent, n) <= |sent|
    ensures Since(sent, n) > 0 ==> sent[Since(sent, n) - 1].name == n
    ensures forall k | Since(sent, n) <= k < |sent| :: sent[k].name != n
  {
    if sent != [] && sent[|sent| - 1].name != n {
      SinceIs(sent[..|sent| - 1], n);
    }
  }

  lemma UploadsInPrefix(files: Store, sent: seq<Sent>, k: nat)
    requires k < |sent| - 1
    ensures Uploads(files, sent[..|sent| - 1], k) == Uploads(files, sent, k)
  {
    assert sent[..|sent| - 1][..k] == sent[..k];
  }

  lemma RemovedOneMore(files: Store, sent: seq<Sent>, n: string, from: nat)
    requires from < |sent|
    ensures var last := |sent| - 1;
            Removed(files, sent, n, from) <==>
            Removed(files, sent[..last], n, from) || (PartOf(sent[last].name) == n && Uploads(files, sent, last))
  {
    var last := |sent| - 1;
    forall k: nat | k < last ensures Uploads(files, sent[..last], k) == Uploads(files, sent, k) && sent[..last][k] == sent[k] {
      UploadsInPrefix(files, sent, k);
    }
  }

  /** While a name is not pushed, it stays as it was until a real upload removes it as its part file. */
  lemma {:induction false} NameSince(files: Store, sent: seq<Sent>, n: string, from: nat)
    requires from <= |sent| && forall k | from <= k < |sent| :: sent[k].name != n
    ensures if Removed(files, sent, n, from) then n !in CachedAll(files, sent)
            else AgreeAt(CachedAll(files, sent[..from]), CachedAll(files, sent), n)
    decreases |sent|
  {
    if from == |sent| {
      assert sent[..from] == sent;
    } else {
      var last := |sent| - 1;
      NameSince(files, sent[..last], n, from);
      RemovedOneMore(files, sent, n, from);
      assert sent[..last][..from] == sent[..from];
    }
  }

  /** Uploading everything does the same with every push. */
  lemma {:induction false} NameSinceUploaded(files: Store, sent: seq<Sent>, n: string, from: nat)
    requires from <= |sent| && forall k | from <= k < |sent| :: sent[k].name != n
    ensures if PartSent(sent, n, from) then n !in UploadAll(files, sent)
            else AgreeAt(UploadAll(files, sent[..from]), UploadAll(files, sent), n)
    decreases |sent|
  {
    if from == |sent| {
      assert sent[..from] == sent;
    } else {
      var before, last := sent[..|sent| - 1], |sent| - 1;
      NameSinceUploaded(files, before, n, from);
      assert forall k | 0 <= k < last :: before[k] == sent[k];
      assert PartSent(sent, n, from) <==> PartSent(before, n, from) || PartOf(sent[last].name) == n;
      assert before[..from] == sent[..from];
    }
  }

  /** Right after its own push, a name holds the bytes pushed, skipped or not. */
  lemma PushedName(files: Store, sent: seq<Sent>, l: nat)
    requires l < |sent|
    ensures Holds(CachedAll(files, sent[..l + 1]), sent[l]) && Holds(UploadAll(files, sent[..l + 1]), sent[l])
  {
    assert sent[..l + 1][..l] == sent[..l];
    assert |PartOf(sent[l].name)| > |sent[l].name|;
  }

  // ---- the cache against uploading everything, for whole sequences ----

  /** The two ways of pushing leave the same under this name. */
  predicate Settled(files: Store, sent: seq<Sent>, n: string) {
    PartSent(sent, n, Since(sent, n)) ==>
      Removed(files, sent, n, Since(sent, n)) || (Since(sent, n) == 0 && n !in files)
  }

  lemma AgreeIffSettled(files: Store, sent: seq<Sent>, n: string)
    ensures AgreeAt(CachedAll(files, sent), UploadAll(files, sent), n) <==> Settled(files, sent, n)
  {
    var from := Since(sent, n);
    SinceIs(sent, n);
    NameSince(files, sent, n, from);
    NameSinceUploaded(files, sent, n, from);
    RemovedIsSent(files, sent, n, from);
    if from > 0 {
      PushedName(files, sent, from - 1);
    }
  }

  lemma RemovedIsSent(files: Store, sent: seq<Sent>, n: string, from: nat)
    ensures Removed(files, sent, n, from) ==> PartSent(sent, n, from)
  {
  }

  /** For any starting store and any sequence of files, with any repeats and any names: the cache leaves the
      store that uploading everything leaves if and only if, for every file sent, its part name is not sent
      before it without a real upload after, and no old part file survives because all of its pushes were
      skipped. Every other name always agrees. */
  lemma CacheEqualsUploadAll(files: Store, sent: seq<Sent>)
    ensures CachedAll(files, sent) == UploadAll(files, sent) <==>
            forall k | 0 <= k < |sent| :: Settled(files, sent, PartOf(sent[k].name))
    ensures forall n | !PartSent(sent, n, 0) :: AgreeAt(CachedAll(files, sent), UploadAll(files, sent), n)
  {
    var a, b := CachedAll(files, sent), UploadAll(files, sent);
    forall n ensures AgreeAt(a, b, n) <==> Settled(files, sent, n) {
      AgreeIffSettled(files, sent, n);
    }
    forall n | !PartSent(sent, n, 0) ensures Settled(files, sent, n) {
    }
    if forall k | 0 <= k < |sent| :: Settled(files, sent, PartOf(sent[k].name)) {
      forall n ensures AgreeAt(a, b, n) {
        if k :| 0 <= k < |sent| && PartOf(sent[k].name) == n {
          assert Settled(files, sent, PartOf(sent[k].name));
        }
      }
      SameStore(a, b);
    }
    if a == b {
      forall k | 0 <= k < |sent| ensures Settled(files, sent, PartOf(sent[k].name)) {
        assert AgreeAt(a, b, PartOf(sent[k].name));
      }
    }
  }

  lemma SameStore(a: Store, b: Store)
    requires forall n :: AgreeAt(a, b, n)
    ensures a == b
  {
    assert forall n | n in a :: AgreeAt(a, b, n);
    assert forall n | n in b :: AgreeAt(a, b, n);
  }

  /** No file sent is named as the part of a file sent. */
  ghost predicate NoPartNames(sent: seq<Sent>) {
    forall i, k | 0 <= i < |sent| && 0 <= k < |sent| :: sent[i].name != PartOf(sent[k].name)
  }

  /** Some push of this name finds no answer, or other bytes than `files` holds under it. */
  predicate SomePushDiffers(files: Store, sent: seq<Sent>, x: string) {
    exists k | 0 <= k < |sent| :: sent[k].name == x && (sent[k].probeFails || !Has(files, x, HashOf(sent[k].data)))
  }

  /** Without such names the condition can be read off the starting store: for every file sent whose part
      name is there, some push has to differ from what the store holds. */
  lemma CacheEqualsUploadAllPlain(files: Store, sent: seq<Sent>)
    requires NoPartNames(sent)
    ensures CachedAll(files, sent) == UploadAll(files, sent) <==>
            forall i | 0 <= i < |sent| && PartOf(sent[i].name) in files :: SomePushDiffers(files, sent, sent[i].name)
  {
    CacheEqualsUploadAll(files, sent);
    forall i | 0 <= i < |sent|
      ensures Settled(files, sent, PartOf(sent[i].name)) <==>
              (PartOf(sent[i].name) in files ==> SomePushDiffers(files, sent, sent[i].name))
    {
      SettledFromStart(files, sent, i);
    }
  }

  lemma SettledFromStart(files: Store, sent: seq<Sent>, i: nat)
    requires NoPartNames(sent) && i < |sent|
    ensures Settled(files, sent, PartOf(sent[i].name)) <==>
            (PartOf(sent[i].name) in files ==> SomePushDiffers(files, sent, sent[i].name))
  {
    var x := sent[i].name;
    SinceIs(sent, PartOf(x));
    assert Since(sent, PartOf(x)) == 0;
    assert PartSent(sent, PartOf(x), 0);
    forall k | 0 <= k < |sent| ensures PartOf(sent[k].name) == PartOf(x) <==> sent[k].name == x {
      assert PartOf(sent[k].name)[..|sent[k].name|] == sent[k].name && PartOf(x)[..|x|] == x;
    }
    if Removed(files, sent, PartOf(x), 0) {
      var k :| 0 <= k < |sent| && PartOf(sent[k].name) == PartOf(x) && Uploads(files, sent, k);
      FirstUploadDiffers(files, sent, x, k);
    }
    if k :| 0 <= k < |sent| && sent[k].name == x && (sent[k].probeFails || !Has(files, x, HashOf(sent[k].data))) {
      DifferingPushUploads(files, sent, x, k);
    }
  }

  /** A real upload of `x` goes back to a push of `x` that differs from the starting store. */
  lemma {:induction false} FirstUploadDiffers(files: Store, sent: seq<Sent>, x: string, k: nat)
    requires NoPartNames(sent) && k < |sent| && sent[k].name == x && Uploads(files, sent, k)
    ensures SomePushDiffers(files, sent, x)
  {
    if j :| 0 <= j < k && sent[j].name == x && Uploads(files, sent, j) {
      FirstUploadDiffers(files, sent, x, j);
    } else {
      SkippedLeavesAlone(files, sent, x, k);
    }
  }

  /** A push of `x` that differs from the starting store uploads, or an earlier one does. */
  lemma DifferingPushUploads(files: Store, sent: seq<Sent>, x: string, k: nat)
    requires NoPartNames(sent) && k < |sent| && sent[k].name == x
    requires sent[k].probeFails || !Has(files, x, HashOf(sent[k].data))
    ensures exists j | 0 <= j <= k :: sent[j].name == x && Uploads(files, sent, j)
  {
    if !exists j | 0 <= j < k :: sent[j].name == x && Uploads(files, sent, j) {
      SkippedLeavesAlone(files, sent, x, k);
      assert Uploads(files, sent, k);
    }
  }

  /** Until a push of `x` uploads, `x` is as it was. */
  lemma SkippedLeavesAlone(files: Store, sent: seq<Sent>, x: string, k: nat)
    requires NoPartNames(sent) && k < |sent|
    requires sent[k].name == x && forall j | 0 <= j < k && sent[j].name == x :: !Uploads(files, sent, j)
    ensures AgreeAt(files, CachedAll(files, sent[..k]), x)
  {
    for m := 0 to k
      invariant AgreeAt(files, CachedAll(files, sent[..m]), x)
    {
      assert sent[..m + 1][..m] == sent[..m];
    }
  }

  // ---- which files hold the sender's bytes when the manifest is sent ----

  ghost predicate Holds(files: Store, s: Sent) {
    s.name in files && files[s.name] == s.data
  }

  /** Two files under one name are the same file. */
  ghost predicate RepeatsAgree(sent: seq<Sent>) {
    forall i, k | 0 <= i < k < |sent| && sent[i].name == sent[k].name :: sent[i].data == sent[k].data
  }

  /** No file is removed as the part file of a later upload without being sent again. */
  ghost predicate NothingLost(files: Store, sent: seq<Sent>) {
    forall i | 0 <= i < |sent| :: !Removed(files, sent, sent[i].name, Since(sent, sent[i].name))
  }

  /** Exactly when one file holds: the last file sent under its name has the same bytes, and no real upload
      after that removes the name as its part file. */
  lemma FileHoldsExactly(files: Store, sent: seq<Sent>, i: nat)
    requires i < |sent|
    ensures var l := Since(sent, sent[i].name) - 1;
            && i <= l < |sent| && sent[l].name == sent[i].name
            && (Holds(CachedAll(files, sent), sent[i]) <==>
                sent[l].data == sent[i].data && !Removed(files, sent, sent[i].name, l + 1))
  {
    var n := sent[i].name;
    SinceIs(sent, n);
    NameSince(files, sent, n, Since(sent, n));
    PushedName(files, sent, Since(sent, n) - 1);
  }

  /** Every file holds the sender's bytes when the manifest is sent if and only if files sent under one name
      are the same and none is lost as a part file. */
  lemma EveryFileHolds(files: Store, sent: seq<Sent>)
    ensures (forall i | 0 <= i < |sent| :: Holds(CachedAll(files, sent), sent[i])) <==>
            RepeatsAgree(sent) && NothingLost(files, sent)
  {
    var end := CachedAll(files, sent);
    forall i | 0 <= i < |sent|
      ensures RepeatsAgree(sent) && NothingLost(files, sent) ==> Holds(end, sent[i])
      ensures Holds(end, sent[i]) ==> !Removed(files, sent, sent[i].name, Since(sent, sent[i].name))
    {
      FileHoldsExactly(files, sent, i);
    }
    if forall i | 0 <= i < |sent| :: Holds(end, sent[i]) {
      forall i, k | 0 <= i < k < |sent| && sent[i].name == sent[k].name ensures sent[i].data == sent[k].data {
        assert Holds(end, sent[i]) && Holds(end, sent[k]);
      }
    }
  }

  /** No file's name is the part name of one sent after it. */
  ghost predicate NoPartClash(sent: seq<Sent>) {
    forall i, k | 0 <= i < k < |sent| :: sent[i].name != PartOf(sent[k].name)
  }

  /** Without such names nothing is lost. */
  lemma NoClashNothingLost(files: Store, sent: seq<Sent>)
    requires NoPartClash(sent)
    ensures NothingLost(files, sent)
  {
    forall i | 0 <= i < |sent| ensures !Removed(files, sent, sent[i].name, Since(sent, sent[i].name)) {
      SinceIs(sent, sent[i].name);
    }
  }

  /** A file named as the part of the next one is lost. */
  lemma PartNamedFileIsLost()
    ensures var sent := [Sent("a.part", [1], false), Sent("a", [2], false)];
            CachedAll(map[], sent) == map["a" := [2]]
  {
    var sent := [Sent("a.part", [1], false), Sent("a", [2], false)];
    assert sent[..1] == [sent[0]] && sent[..1][..0] == [];
    assert PartOf("a") == "a.part" && PartOf("a.part") != "a";
    assert CachedAll(map[], []) == map[];
    assert CachedAll(map[], sent[..1]) == map["a.part" := [1]];
  }

  // ---- download ----

  /** The receiving side: any reply is checked against its own checksum before a byte is written. */
  class Collector {
    var disk: Store

    constructor (disk: Store)
      ensures this.disk == disk
    {
      this.disk := disk;
    }

    /** `broken` is what a failing write leaves at the destination. */
    method DownloadFile(codec: Codec<bv8>, reply: Option<Reply>, dest: string, broken: Option<Bytes>)
      returns (r: Option<Checksum>)
      modifies this
      ensures r.Some? ==>
                && reply.Some? && r.value == reply.value.checksum && r.value.HashOf?
                && disk == old(disk)[dest := r.value.data]
      ensures r.None? ==> disk == old(disk) || (broken.Some? && disk == old(disk)[dest := broken.value])
      ensures r.Some? <==> broken.None? && reply.Some? && Received(codec, reply.value).Some?
    {
      if reply.None? {
        return None;
      }
      var data := if reply.value.encoded then UnpackFrame(codec, reply.value.body) else Some(reply.value.body);
      if data.None? || HashOf(data.value) != reply.value.checksum {
        return None;
      }
      if broken.Some? {
        disk := disk[dest := broken.value];
        return None;
      }
      disk := disk[dest := data.value];
      r := Some(HashOf(data.value));
    }
  }

  /** The bytes of a reply, if they decode and match its checksum. */
  function Received(c: Codec<bv8>, reply: Reply): Option<Bytes> {
    var data := if reply.encoded then UnpackFrame(c, reply.body) else Some(reply.body);
    if data.Some? && HashOf(data.value) == reply.checksum then data else None
  }

  /** After all the pushes, every file can be downloaded as it was sent, compressed or not on either way, if
      files under one name agree and none is lost; and a file comes back as sent only if it holds. */
  lemma EveryFileComesBack(c: Codec<bv8>, files: Store, sent: seq<Sent>, i: nat, compress: bool)
    requires Lossless(c) && i < |sent| && ValidName(sent[i].name)
    ensures var reply := Served(c, CachedAll(files, sent), sent[i].name, compress);
            && (RepeatsAgree(sent) && NothingLost(files, sent) ==>
                  reply.Some? && Received(c, reply.value) == Some(sent[i].data))
            && (reply.Some? && Received(c, reply.value) == Some(sent[i].data) ==> Holds(CachedAll(files, sent), sent[i]))
            && (reply.Some? ==> reply.value.encoded == compress)
  {
    var end, name := CachedAll(files, sent), sent[i].name;
    EveryFileHolds(files, sent);
    if name in end {
      PackedFrameRoundTrip(c, end[name]);
    }
  }
}
