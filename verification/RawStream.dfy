/**
 Raw stream targets: crates/adapters/src/raw_stream.rs.

 The target directory is a map from file names to contents; a sidecar's text is taken as the record it
 parses to. Every change of the directory is recorded in `history`, so a statement about all of
 `history` holds at every point a transfer can be interrupted at.
 */
module RawStream {
  import opened Wrappers
  import opened Sequences
  import opened Model
  import opened Parent
  import opened Pipeline
  import opened SendCommand

  datatype Codec = Zstd | Gzip | Xz | Uncompressed

  datatype SidecarInfo = SidecarInfo(
    uuid: Uuid,
    receivedFrom: Uuid,
    leaf: string,
    streamFile: string,
    createdAt: nat,
    compress: string,
    encrypt: string
  )

  datatype File = Stream(bytes: seq<byte>) | Sidecar(info: SidecarInfo) | UuidText(uuid: Uuid) | Malformed

  type Directory = map<string, File>

  const FS_UUID_FILE := ".mybtrfs_raw_fs_uuid"

  // ---------------------------------------------------------------------------
  // Names
  // ---------------------------------------------------------------------------

  predicate EndsWith(s: string, suffix: string) {
    |s| >= |suffix| && s[|s| - |suffix|..] == suffix
  }

  lemma EndOfConcat(a: string, b: string)
    ensures EndsWith(a + b, b) && (a + b)[..|a|] == a
  {
  }

  function CodecSuffix(codec: Codec): string {
    match codec
    case Zstd => ".zst"
    case Gzip => ".gz"
    case Xz => ".xz"
    case Uncompressed => ""
  }

  function StreamName(leaf: string, codec: Codec, encrypted: bool): string {
    leaf + ".btrfs" + CodecSuffix(codec) + if encrypted then ".gpg" else ""
  }

  function SidecarName(leaf: string): string { leaf + ".info" }

  function TmpName(leaf: string): string { leaf + ".info.tmp" }

  /** The listing's filter: extension `info`, and a stem that does not end in `.tmp`. */
  predicate IsSidecarName(name: string) {
    |name| > 5 && EndsWith(name, ".info") && !EndsWith(name[..|name| - 5], ".tmp")
  }

  /** The names of the files: the extensions of a stream by codec, plain and encrypted, and of the sidecar. */
  lemma FileNames(leaf: string)
    ensures SidecarName(leaf) == leaf + ".info" && TmpName(leaf) == leaf + ".info" + ".tmp"
    ensures FS_UUID_FILE == ".mybtrfs_raw_fs_uuid"
    ensures StreamName(leaf, Zstd, false) == leaf + ".btrfs.zst"
    ensures StreamName(leaf, Zstd, true) == leaf + ".btrfs.zst.gpg"
    ensures StreamName(leaf, Gzip, false) == leaf + ".btrfs.gz"
    ensures StreamName(leaf, Gzip, true) == leaf + ".btrfs.gz.gpg"
    ensures StreamName(leaf, Xz, false) == leaf + ".btrfs.xz"
    ensures StreamName(leaf, Xz, true) == leaf + ".btrfs.xz.gpg"
    ensures StreamName(leaf, Uncompressed, false) == leaf + ".btrfs"
    ensures StreamName(leaf, Uncompressed, true) == leaf + ".btrfs.gpg"
  {
  }

  /** What the listing takes for a sidecar is what is named like one, unless the leaf ends in `.tmp`. */
  lemma SidecarNamesOnly(name: string)
    ensures IsSidecarName(name) <==> exists leaf :: leaf != "" && name == leaf + ".info" && !EndsWith(leaf, ".tmp")
  {
    if IsSidecarName(name) {
      assert name == name[..|name| - 5] + ".info";
    }
    forall leaf | leaf != "" && name == leaf + ".info" && !EndsWith(leaf, ".tmp") ensures IsSidecarName(name) {
      SidecarIsListed(leaf);
    }
  }

  /** A sidecar shows in the listing unless its leaf ends in `.tmp`. */
  lemma SidecarIsListed(leaf: string)
    requires leaf != ""
    ensures IsSidecarName(SidecarName(leaf)) <==> !EndsWith(leaf, ".tmp")
  {
    EndOfConcat(leaf, ".info");
  }

  function LastChar(s: string): char
    requires s != ""
  {
    s[|s| - 1]
  }

  lemma LastOfConcat(a: string, b: string)
    requires b != ""
    ensures LastChar(a + b) == LastChar(b)
  {
  }

  /** The four kinds of names end in different characters. */
  lemma LastChars(leaf: string, codec: Codec, encrypted: bool)
    ensures LastChar(StreamName(leaf, codec, encrypted)) in ['g', 's', 't', 'z']
    ensures LastChar(SidecarName(leaf)) == 'o' && LastChar(TmpName(leaf)) == 'p' && LastChar(FS_UUID_FILE) == 'd'
  {
    var front := leaf + ".btrfs" + CodecSuffix(codec);
    LastOfConcat(leaf, ".info");
    LastOfConcat(leaf, ".info.tmp");
    if encrypted {
      LastOfConcat(front, ".gpg");
    } else {
      assert front + "" == front;
      LastOfConcat(leaf, ".btrfs");
      if codec == Uncompressed {
        assert front == leaf + ".btrfs";
      } else {
        LastOfConcat(leaf + ".btrfs", CodecSuffix(codec));
      }
    }
  }

  lemma ListedEndsInO(name: string)
    requires IsSidecarName(name)
    ensures LastChar(name) == 'o'
  {
    assert name[|name| - 5..][4] == 'o';
  }

  /** They are all different, and only the sidecar can show in the listing. */
  lemma NamesApart(leaf: string, codec: Codec, encrypted: bool)
    ensures
      var stream := StreamName(leaf, codec, encrypted);
      && !IsSidecarName(stream) && stream != FS_UUID_FILE
      && !IsSidecarName(TmpName(leaf)) && TmpName(leaf) != FS_UUID_FILE && SidecarName(leaf) != FS_UUID_FILE
      && stream != TmpName(leaf) && stream != SidecarName(leaf) && SidecarName(leaf) != TmpName(leaf)
  {
    LastChars(leaf, codec, encrypted);
    if IsSidecarName(StreamName(leaf, codec, encrypted)) {
      ListedEndsInO(StreamName(leaf, codec, encrypted));
    }
    if IsSidecarName(TmpName(leaf)) {
      ListedEndsInO(TmpName(leaf));
    }
  }

  // ---------------------------------------------------------------------------
  // The listing
  // ---------------------------------------------------------------------------

  /** A listed backup: its sidecar under the directory's filesystem uuid. */
  datatype Entry = Entry(info: SidecarInfo, fsUuid: Uuid)

  datatype ListError = MissingUuid | BadUuid

  function SidecarNames(dir: Directory): set<string> {
    set name | name in dir && IsSidecarName(name)
  }

  function Entries(dir: Directory, fsUuid: Uuid): set<Entry> {
    set name | name in SidecarNames(dir) && dir[name].Sidecar? :: Entry(dir[name].info, fsUuid)
  }

  /** What `list` reports, as a set; unreadable sidecars are skipped. */
  function Listing(dir: Directory): Result<set<Entry>, ListError> {
    if FS_UUID_FILE !in dir then
      if SidecarNames(dir) != {} then Err(MissingUuid) else Ok({})
    else if !dir[FS_UUID_FILE].UuidText? then Err(BadUuid)
    else Ok(Entries(dir, dir[FS_UUID_FILE].uuid))
  }

  /** The subvolume an entry stands for; `id` is derived from the entry's uuid. */
  function ToSubvolume(entry: Entry, id: nat, dir: Path): Subvolume {
    Subvolume(id, Some(entry.info.uuid), None, Some(entry.info.receivedFrom),
              entry.info.createdAt, entry.info.createdAt,
              true, Path(false, [entry.info.leaf]), entry.fsUuid, dir)
  }

  /** A change under a name the listing ignores does not change the listing. */
  lemma UnlistedChange(dir: Directory, dir': Directory, name: string)
    requires !IsSidecarName(name) && name != FS_UUID_FILE
    requires forall n :: n != name ==> (n in dir' <==> n in dir) && (n in dir ==> dir'[n] == dir[n])
    ensures Listing(dir') == Listing(dir)
  {
    assert SidecarNames(dir') == SidecarNames(dir);
    if FS_UUID_FILE in dir && dir[FS_UUID_FILE].UuidText? {
      assert Entries(dir', dir[FS_UUID_FILE].uuid) == Entries(dir, dir[FS_UUID_FILE].uuid);
    }
  }

  // ---------------------------------------------------------------------------
  // The pipelines
  // ---------------------------------------------------------------------------

  /** The programs of the pipelines, with the arguments that matter. */
  datatype Tool =
    | ZstdTool(decode: bool)
    | GzipTool(decode: bool)
    | XzTool(decode: bool)
    | Cat
    | Gpg(decode: bool, passphrase: string)

  /** What the programs compute. */
  datatype Tools = Tools(
    code: (Codec, seq<byte>) -> seq<byte>,
    decode: (Codec, seq<byte>) -> seq<byte>,
    encrypt: (string, seq<byte>) -> seq<byte>,
    decrypt: (string, seq<byte>) -> seq<byte>
  ) {
    /** Each program undoes its counterpart. */
    ghost predicate Sound() {
      && (forall codec, bytes :: decode(codec, code(codec, bytes)) == bytes)
      && (forall pass, bytes :: decrypt(pass, encrypt(pass, bytes)) == bytes)
    }

    function Run(tool: Tool, bytes: seq<byte>): seq<byte> {
      match tool
      case ZstdTool(back) => if back then decode(Zstd, bytes) else code(Zstd, bytes)
      case GzipTool(back) => if back then decode(Gzip, bytes) else code(Gzip, bytes)
      case XzTool(back) => if back then decode(Xz, bytes) else code(Xz, bytes)
      case Cat => bytes
      case Gpg(back, pass) => if back then decrypt(pass, bytes) else encrypt(pass, bytes)
    }
  }

  /** The two stages between `btrfs send` and the file: compress, then encrypt or copy. */
  function SendStages(codec: Codec, passphrase: Option<string>): (Tool, Tool) {
    (match codec
     case Zstd => ZstdTool(false)
     case Gzip => GzipTool(false)
     case Xz => XzTool(false)
     case Uncompressed => Cat,
     match passphrase
     case None => Cat
     case Some(pass) => Gpg(false, pass))
  }

  function CompressWord(codec: Codec): string {
    match codec
    case Zstd => "zstd"
    case Gzip => "gzip"
    case Xz => "xz"
    case Uncompressed => "none"
  }

  function EncryptWord(passphrase: Option<string>): string {
    if passphrase.Some? then "gpg-symmetric" else "none"
  }

  datatype RestoreError = UnknownWord | NoPassphrase

  /** The two stages between the file and `btrfs receive`, chosen from the sidecar's words. */
  function RestoreStages(info: SidecarInfo, passphrase: Option<string>): Result<(Tool, Tool), RestoreError> {
    if info.encrypt != "gpg-symmetric" && info.encrypt != "none" then Err(UnknownWord)
    else if info.encrypt == "gpg-symmetric" && passphrase.None? then Err(NoPassphrase)
    else
      var decrypt := if info.encrypt == "none" then Cat else Gpg(true, passphrase.value);
      if info.compress == "zstd" then Ok((decrypt, ZstdTool(true)))
      else if info.compress == "gzip" then Ok((decrypt, GzipTool(true)))
      else if info.compress == "xz" then Ok((decrypt, XzTool(true)))
      else if info.compress == "none" then Ok((decrypt, Cat))
      else Err(UnknownWord)
  }

  /**
   Restoring what a transfer wrote gives back the stream that was sent, for every codec, with the
   same passphrase or without encryption.
   */
  lemma RestoreInvertsSend(tools: Tools, info: SidecarInfo, codec: Codec, passphrase: Option<string>,
                           given: Option<string>, stream: seq<byte>)
    requires tools.Sound() && info.compress == CompressWord(codec) && info.encrypt == EncryptWord(passphrase)
    ensures RestoreStages(info, given).Ok? <==> passphrase.None? || given.Some?
    ensures passphrase.None? || given == passphrase ==>
      var (compress, encrypt) := SendStages(codec, passphrase);
      var (decrypt, decompress) := RestoreStages(info, given).value;
      tools.Run(decompress, tools.Run(decrypt, tools.Run(encrypt, tools.Run(compress, stream)))) == stream
  {
    var (compress, encrypt) := SendStages(codec, passphrase);
    var coded := tools.Run(compress, stream);
    if passphrase.Some? {
      assert tools.decrypt(passphrase.value, tools.encrypt(passphrase.value, coded)) == coded;
    }
    assert tools.decode(codec, tools.code(codec, stream)) == stream;
  }

  /** The words restore understands, and what it needs for them. */
  lemma RestoreRefuses(info: SidecarInfo, given: Option<string>)
    ensures RestoreStages(info, given).Ok? <==>
      && info.compress in ["zstd", "gzip", "xz", "none"]
      && (info.encrypt == "none" || (info.encrypt == "gpg-symmetric" && given.Some?))
    ensures RestoreStages(info, given) == Err(NoPassphrase) <==> info.encrypt == "gpg-symmetric" && given.None?
  {
  }

  /** What the send pipeline makes of a stream. */
  function Encoded(tools: Tools, codec: Codec, passphrase: Option<string>, stream: seq<byte>): seq<byte> {
    var (compress, encrypt) := SendStages(codec, passphrase);
    tools.Run(encrypt, tools.Run(compress, stream))
  }

  /** Whatever sound programs made of a stream with this codec and passphrase, the record's stages turn back into it. */
  ghost predicate Restorable(info: SidecarInfo, codec: Codec, passphrase: Option<string>) {
    && RestoreStages(info, passphrase).Ok?
    && var (decrypt, decompress) := RestoreStages(info, passphrase).value;
       forall tools: Tools, stream :: tools.Sound() ==>
         tools.Run(decompress, tools.Run(decrypt, Encoded(tools, codec, passphrase, stream))) == stream
  }

  lemma WordsRestore(info: SidecarInfo, codec: Codec, passphrase: Option<string>)
    requires info.compress == CompressWord(codec) && info.encrypt == EncryptWord(passphrase)
    ensures Restorable(info, codec, passphrase)
  {
    forall tools: Tools, stream | tools.Sound()
      ensures
        var (decrypt, decompress) := RestoreStages(info, passphrase).value;
        tools.Run(decompress, tools.Run(decrypt, Encoded(tools, codec, passphrase, stream))) == stream
    {
      RestoreInvertsSend(tools, info, codec, passphrase, passphrase, stream);
    }
  }

  // ---------------------------------------------------------------------------
  // Transfers
  // ---------------------------------------------------------------------------

  /** What `pipe3` does to the stream file: it may create it, writes chunk by chunk, and succeeds or not. */
  datatype PipeAnswer = PipeAnswer(creates: bool, chunks: seq<seq<byte>>, ok: bool) {
    predicate Delivers() { ok && creates && Joined(chunks) != [] }
  }

  function Joined(chunks: seq<seq<byte>>): seq<byte> {
    if chunks == [] then [] else Joined(chunks[..|chunks| - 1]) + chunks[|chunks| - 1]
  }

  /** Which of the cleanup's three deletions work. */
  datatype Removals = Removals(stream: bool, sidecar: bool, tmp: bool)

  /** `roundTrips` says whether the sidecar's text parses back to its record. */
  datatype Answers = Answers(
    fsUuid: Uuid,
    streamUuid: Uuid,
    now: nat,
    pipe: PipeAnswer,
    roundTrips: bool,
    removals: Removals
  ) {
    predicate Favorable() { pipe.Delivers() && roundTrips }
  }

  datatype RawError = NoLeaf | IoError | PipeFailed | EmptyStream | NoUuid | BadSidecar

  predicate Fresh(dir: Directory, leaf: string, codec: Codec, encrypted: bool) {
    StreamName(leaf, codec, encrypted) !in dir && SidecarName(leaf) !in dir && TmpName(leaf) !in dir
  }

  /** The three files of one backup. */
  function OwnFiles(leaf: string, codec: Codec, encrypted: bool): set<string> {
    {StreamName(leaf, codec, encrypted), SidecarName(leaf), TmpName(leaf)}
  }

  /** The directory is usable before the transfer: its uuid file is in place. */
  predicate Prepared(dir: Directory) {
    FS_UUID_FILE in dir && dir[FS_UUID_FILE].UuidText?
  }

  /** The entry is listed and its stream is there, whole and not empty. */
  ghost predicate Published(before: Directory, dir: Directory, info: SidecarInfo, bytes: seq<byte>) {
    && Listing(before).Ok? && Prepared(dir)
    && Listing(dir) == Ok(Listing(before).value + {Entry(info, dir[FS_UUID_FILE].uuid)})
    && info.streamFile in dir && dir[info.streamFile] == Stream(bytes) && bytes != []
  }

  lemma OldEntryStays(dir: Directory, dir': Directory, leaf: string, info: SidecarInfo, u: Uuid, e: Entry)
    requires SidecarName(leaf) !in dir && dir' == (dir - {TmpName(leaf)})[SidecarName(leaf) := Sidecar(info)]
    requires !IsSidecarName(TmpName(leaf)) && IsSidecarName(SidecarName(leaf))
    ensures e in Entries(dir, u) || e == Entry(info, u) ==> e in Entries(dir', u)
  {
    if e in Entries(dir, u) {
      var name :| name in SidecarNames(dir) && dir[name].Sidecar? && e == Entry(dir[name].info, u);
      assert name in SidecarNames(dir') && dir'[name] == dir[name];
    }
    assert SidecarName(leaf) in SidecarNames(dir') && dir'[SidecarName(leaf)] == Sidecar(info);
  }

  lemma NewEntryOrOld(dir: Directory, dir': Directory, leaf: string, info: SidecarInfo, u: Uuid, e: Entry)
    requires dir' == (dir - {TmpName(leaf)})[SidecarName(leaf) := Sidecar(info)]
    ensures e in Entries(dir', u) ==> e in Entries(dir, u) || e == Entry(info, u)
  {
    if e in Entries(dir', u) {
      var name :| name in SidecarNames(dir') && dir'[name].Sidecar? && e == Entry(dir'[name].info, u);
      if name != SidecarName(leaf) {
        assert name in SidecarNames(dir) && dir[name] == dir'[name];
      }
    }
  }

  /** Publishing is the one step that changes the listing. */
  lemma PublishAdds(dir: Directory, leaf: string, info: SidecarInfo)
    requires Prepared(dir) && leaf != "" && SidecarName(leaf) !in dir && !EndsWith(leaf, ".tmp")
    requires TmpName(leaf) in dir && dir[TmpName(leaf)] == Sidecar(info)
    ensures
      var dir' := (dir - {TmpName(leaf)})[SidecarName(leaf) := Sidecar(info)];
      Listing(dir') == Ok(Listing(dir).value + {Entry(info, dir[FS_UUID_FILE].uuid)})
  {
    var dir' := (dir - {TmpName(leaf)})[SidecarName(leaf) := Sidecar(info)];
    var u := dir[FS_UUID_FILE].uuid;
    SidecarIsListed(leaf);
    NamesApart(leaf, Uncompressed, false);
    forall e ensures e in Entries(dir', u) <==> e in Entries(dir, u) + {Entry(info, u)} {
      OldEntryStays(dir, dir', leaf, info, u, e);
      NewEntryOrOld(dir, dir', leaf, info, u, e);
    }
    assert Entries(dir', u) == Entries(dir, u) + {Entry(info, u)};
  }

  /** The directory with its uuid file in place: the one that is there, else the one the first transfer makes up. */
  function WithUuid(dir: Directory, fsUuid: Uuid): Directory {
    if FS_UUID_FILE in dir then dir else dir[FS_UUID_FILE := UuidText(fsUuid)]
  }

  /**
   What readers can see before anything is published: the listing from before; on a first transfer also
   the error of a half-written uuid file, and then the old sidecars under the new uuid.
   */
  ghost predicate Underway(before: Directory, dir: Directory, fsUuid: Uuid) {
    || Listing(dir) == Listing(before)
    || (FS_UUID_FILE !in before && Listing(dir) in {Err(BadUuid), Listing(WithUuid(before, fsUuid))})
  }

  /** All states recorded since `start` list what `dir` lists. */
  ghost predicate Quiet(history: seq<Directory>, start: nat, dir: Directory) {
    forall k :: start <= k < |history| ==> Listing(history[k]) == Listing(dir)
  }

  /** The states from `start` to before `end` list what `dir` lists. */
  ghost predicate QuietUntil(history: seq<Directory>, start: nat, end: int, dir: Directory) {
    forall k :: start <= k < end && k < |history| ==> Listing(history[k]) == Listing(dir)
  }

  /** Published over what the uuid in use lists, so also over what was listed before, if that was no error. */
  ghost predicate PublishedSince(before: Directory, fsUuid: Uuid, dir: Directory, info: SidecarInfo, bytes: seq<byte>) {
    && Published(WithUuid(before, fsUuid), dir, info, bytes)
    && (Listing(before).Ok? ==> Published(before, dir, info, bytes))
  }

  lemma PublishedFromStart(before: Directory, fsUuid: Uuid, dir: Directory, info: SidecarInfo, bytes: seq<byte>)
    requires Published(WithUuid(before, fsUuid), dir, info, bytes)
    ensures PublishedSince(before, fsUuid, dir, info, bytes)
  {
    if Listing(before).Ok? {
      FirstUuidListsNothing(before, fsUuid);
    }
  }

  /** A half-written uuid file is an error to readers, and was none of the errors before. */
  lemma HalfWrittenShows(before: Directory)
    requires FS_UUID_FILE !in before
    ensures Listing(before[FS_UUID_FILE := Malformed]) == Err(BadUuid) != Listing(before)
  {
  }

  /** Where a directory without a uuid file lists anything, it lists nothing, also under a new uuid. */
  lemma FirstUuidListsNothing(before: Directory, fsUuid: Uuid)
    requires Listing(before).Ok?
    ensures Listing(WithUuid(before, fsUuid)) == Listing(before)
  {
    if FS_UUID_FILE !in before {
      assert !IsSidecarName(FS_UUID_FILE);
      forall name ensures name !in SidecarNames(WithUuid(before, fsUuid)) {
        assert name !in SidecarNames(before);
      }
      assert Entries(WithUuid(before, fsUuid), fsUuid) == {};
    }
  }

  /** The names whose removal works. */
  function Swept(leaf: string, codec: Codec, encrypted: bool, removals: Removals): set<string> {
    (if removals.stream then {StreamName(leaf, codec, encrypted)} else {})
    + (if removals.sidecar then {SidecarName(leaf)} else {})
    + if removals.tmp then {TmpName(leaf)} else {}
  }

  /** With every removal working, nothing of the backup is left. */
  lemma SweptClean(before: Directory, dir: Directory, own: set<string>)
    requires dir - own == before - own && own !! dir.Keys
    ensures dir == before - own
  {
    assert dir == dir - own;
  }

  /** A file the listing does not look at. */
  predicate Ignored(name: string) { !IsSidecarName(name) && name != FS_UUID_FILE }

  /** The listing does not see the removal of a file it ignores or that is not there. */
  lemma RemovalUnlisted(dir: Directory, name: string)
    requires name in dir ==> Ignored(name)
    ensures Listing(dir - {name}) == Listing(dir)
  {
    if name in dir {
      UnlistedChange(dir, dir - {name}, name);
    } else {
      assert dir - {name} == dir;
    }
  }

  /** The listing has been the same from `start` until now. */
  ghost predicate CalmSince(history: seq<Directory>, start: nat, dir: Directory, before: Directory) {
    Quiet(history, start, before) && Listing(dir) == Listing(before)
  }

  lemma OneMoreCalm(history: seq<Directory>, dir: Directory, name: string, file: File, start: nat, before: Directory)
    requires Ignored(name) && CalmSince(history, start, dir, before)
    ensures CalmSince(history + [dir[name := file]], start, dir[name := file], before)
  {
    UnlistedChange(dir, dir[name := file], name);
  }

  /** A file written in two steps, that the listing ignores, does not disturb it. */
  lemma StillCalm(was: seq<Directory>, mid: Directory, history: seq<Directory>, dir: Directory, name: string,
                  file: File, start: nat, before: Directory)
    requires Ignored(name) && CalmSince(was, start, mid, before)
    requires |was| <= |history| && history[..|was|] == was && dir - {name} == mid - {name}
    requires forall k :: |was| <= k < |history| ==> history[k] in {mid[name := Malformed], mid[name := file]}
    ensures CalmSince(history, start, dir, before)
  {
    UnlistedChange(mid, mid[name := Malformed], name);
    UnlistedChange(mid, mid[name := file], name);
    forall n | n != name ensures (n in dir <==> n in mid) && (n in mid ==> dir[n] == mid[n]) {
      OutsideSame(mid, dir, {name}, n);
    }
    UnlistedChange(mid, dir, name);
    forall k | start <= k < |history| ensures Listing(history[k]) == Listing(before) {
      if k < |was| {
        assert history[k] == was[k];
      }
    }
  }

  /** The stream file is whole and not empty; one that is new holds what the pipeline wrote. */
  predicate HasStream(dir: Directory, stream: string, before: Directory, pipe: PipeAnswer) {
    && stream in dir && dir[stream].Stream? && dir[stream].bytes != []
    && (pipe.creates ==> dir[stream] == Stream(Joined(pipe.chunks)))
    && (stream !in before ==> pipe.creates)
  }

  /** Writing one of a backup's own files other than the sidecar touches nothing else. */
  lemma OwnChangeKept(before: Directory, dir: Directory, leaf: string, codec: Codec, encrypted: bool, name: string)
    requires dir - {name} == before - {name} && name in OwnFiles(leaf, codec, encrypted) && name != SidecarName(leaf)
    ensures dir - OwnFiles(leaf, codec, encrypted) == before - OwnFiles(leaf, codec, encrypted)
    ensures SidecarName(leaf) in dir <==> SidecarName(leaf) in before
  {
    var own := OwnFiles(leaf, codec, encrypted);
    assert dir - own == dir - {name} - own && before - own == before - {name} - own;
    OutsideSame(before, dir, {name}, SidecarName(leaf));
  }

  /** The three removals one after the other. */
  lemma SweptInTurn(dir: Directory, leaf: string, codec: Codec, encrypted: bool, removals: Removals)
    ensures
      var one := if removals.stream then dir - {StreamName(leaf, codec, encrypted)} else dir;
      var two := if removals.sidecar then one - {SidecarName(leaf)} else one;
      (if removals.tmp then two - {TmpName(leaf)} else two) == dir - Swept(leaf, codec, encrypted, removals)
  {
  }

  class RawTarget {
    var dir: Directory
    var budget: nat
    ghost var history: seq<Directory>
    ghost var command: seq<Arg>
    const codec: Codec
    const passphrase: Option<string>
    const answers: Answers

    constructor (dir: Directory, budget: nat, codec: Codec, passphrase: Option<string>, answers: Answers)
      ensures this.dir == dir && this.budget == budget && history == []
      ensures this.codec == codec && this.passphrase == passphrase && this.answers == answers
    {
      this.dir, this.budget, this.history, this.command := dir, budget, [], [];
      this.codec, this.passphrase, this.answers := codec, passphrase, answers;
    }

    /** One file operation: it works while the budget lasts. */
    method Io() returns (ok: bool)
      modifies `budget
      ensures ok == (old(budget) > 0) && budget == if ok then old(budget) - 1 else 0
    {
      ok := budget > 0;
      budget := if ok then budget - 1 else budget;
    }

    method Change(dir: Directory)
      modifies `dir, `history
      ensures this.dir == dir && history == old(history) + [dir]
    {
      this.dir := dir;
      history := history + [dir];
    }

    /** `fs::write`: truncate or create, then fill; either half can fail. */
    method WriteFile(name: string, file: File) returns (ok: bool)
      modifies `dir, `budget, `history
      ensures dir - {name} == old(dir) - {name}
      ensures ok ==> dir == old(dir)[name := file]
      ensures old(budget) >= 2 ==> ok && budget == old(budget) - 2
      ensures |history| >= |old(history)| && history[..|old(history)|] == old(history)
      ensures forall k :: |old(history)| <= k < |history| ==>
        history[k] == old(dir)[name := Malformed] || history[k] == old(dir)[name := file]
      ensures old(budget) == 0 ==> dir == old(dir) && history == old(history)
      ensures old(budget) > 0 ==> |history| > |old(history)| && history[|old(history)|] == old(dir)[name := Malformed]
    {
      ok := Io();
      if !ok {
        return;
      }
      Change(dir[name := Malformed]);
      ok := Io();
      if ok {
        Change(dir[name := file]);
        assert dir == old(dir)[name := file];
      }
    }

    /** The directory's uuid, made up on the first transfer. */
    method LoadOrCreateUuid() returns (ok: bool)
      modifies `dir, `budget, `history
      ensures FS_UUID_FILE in old(dir) || old(budget) < 2 ==> dir == old(dir) && history == old(history)
      ensures dir - {FS_UUID_FILE} == old(dir) - {FS_UUID_FILE}
      ensures ok ==> Prepared(dir) && dir == WithUuid(old(dir), answers.fsUuid)
      ensures FS_UUID_FILE in old(dir) && !Prepared(old(dir)) ==> !ok
      ensures old(budget) >= 3 && (FS_UUID_FILE in old(dir) ==> Prepared(old(dir))) ==> ok && budget >= old(budget) - 3
      ensures |history| >= |old(history)| && history[..|old(history)|] == old(history)
      ensures FS_UUID_FILE !in old(dir) && old(budget) >= 2 ==>
        |history| > |old(history)| && history[|old(history)|] == old(dir)[FS_UUID_FILE := Malformed]
      ensures forall k :: |old(history)| <= k < |history| ==> Underway(old(dir), history[k], answers.fsUuid)
    {
      if FS_UUID_FILE in dir {
        ok := Io();
        return ok && dir[FS_UUID_FILE].UuidText?;
      }
      ok := Io();
      if ok {
        ok := WriteFile(FS_UUID_FILE, UuidText(answers.fsUuid));
        HalfWrittenShows(old(dir));
      }
    }

    /** The pipeline's consumer writes the stream file. */
    method RunPipe(name: string) returns (ok: bool)
      requires Ignored(name)
      modifies `dir, `history
      ensures ok == answers.pipe.ok
      ensures dir - {name} == old(dir) - {name}
      ensures dir == if answers.pipe.creates then old(dir)[name := Stream(Joined(answers.pipe.chunks))] else old(dir)
      ensures |history| >= |old(history)| && history[..|old(history)|] == old(history)
      ensures CalmSince(history, |old(history)|, dir, old(dir))
    {
      if answers.pipe.creates {
        ghost var start := |history|;
        OneMoreCalm(history, dir, name, Stream([]), start, dir);
        Change(dir[name := Stream([])]);
        for i := 0 to |answers.pipe.chunks|
          invariant dir == old(dir)[name := Stream(Joined(answers.pipe.chunks[..i]))]
          invariant |history| >= start && history[..start] == old(history)
          invariant CalmSince(history, start, dir, old(dir))
        {
          assert answers.pipe.chunks[..i + 1][..i] == answers.pipe.chunks[..i];
          var longer := Stream(dir[name].bytes + answers.pipe.chunks[i]);
          OneMoreCalm(history, dir, name, longer, start, old(dir));
          Change(dir[name := longer]);
        }
        assert answers.pipe.chunks[..|answers.pipe.chunks|] == answers.pipe.chunks;
      }
      ok := answers.pipe.ok;
    }

    /** Write a file the listing ignores: what was quiet since `start` stays quiet. */
    method WriteIgnored(name: string, file: File, ghost start: nat, ghost before: Directory) returns (ok: bool)
      requires Ignored(name) && CalmSince(history, start, dir, before)
      modifies `dir, `budget, `history
      ensures dir - {name} == old(dir) - {name}
      ensures ok ==> dir == old(dir)[name := file]
      ensures old(budget) >= 2 ==> ok && budget == old(budget) - 2
      ensures |history| >= |old(history)| && history[..|old(history)|] == old(history)
      ensures CalmSince(history, start, dir, before)
    {
      ok := WriteFile(name, file);
      StillCalm(old(history), old(dir), history, dir, name, file, start, before);
    }

    /** Run the pipeline, check the stream, and write the temporary sidecar. */
    method Prepare(leaf: string, source: Subvolume) returns (failure: Option<RawError>)
      requires Prepared(dir)
      modifies `dir, `budget, `history
      ensures dir - OwnFiles(leaf, codec, passphrase.Some?) == old(dir) - OwnFiles(leaf, codec, passphrase.Some?)
      ensures SidecarName(leaf) in dir <==> SidecarName(leaf) in old(dir)
      ensures failure.None? ==>
        && source.uuid.Some? && answers.pipe.ok && TmpName(leaf) in dir
        && dir[TmpName(leaf)] == Sidecar(InfoOf(leaf, source.uuid.value))
        && HasStream(dir, StreamName(leaf, codec, passphrase.Some?), old(dir), answers.pipe)
      ensures answers.Favorable() && source.uuid.Some? && old(budget) >= 3 ==>
        failure.None? && budget == old(budget) - 3
      ensures |history| >= |old(history)| && history[..|old(history)|] == old(history)
      ensures CalmSince(history, |old(history)|, dir, old(dir))
    {
      var stream, tmp := StreamName(leaf, codec, passphrase.Some?), TmpName(leaf);
      NamesApart(leaf, codec, passphrase.Some?);
      var piped := RunPipe(stream);
      ghost var mid := dir;
      OwnChangeKept(old(dir), mid, leaf, codec, passphrase.Some?, stream);
      if !piped {
        return Some(PipeFailed);
      }
      if stream !in dir || !dir[stream].Stream? {
        return Some(IoError);
      }
      if dir[stream].bytes == [] {
        return Some(EmptyStream);
      }
      if source.uuid.None? {
        return Some(NoUuid);
      }
      var ok := Io();
      if !ok {
        return Some(IoError);
      }
      if !answers.roundTrips {
        return Some(BadSidecar);
      }
      ok := WriteIgnored(tmp, Sidecar(InfoOf(leaf, source.uuid.value)), |old(history)|, old(dir));
      OwnChangeKept(mid, dir, leaf, codec, passphrase.Some?, tmp);
      OutsideSame(mid, dir, {tmp}, stream);
      failure := if ok then None else Some(IoError);
    }

    /** The record for this transfer. */
    function InfoOf(leaf: string, sourceUuid: Uuid): SidecarInfo {
      SidecarInfo(answers.streamUuid, sourceUuid, leaf, StreamName(leaf, codec, passphrase.Some?), answers.now,
                  CompressWord(codec), EncryptWord(passphrase))
    }

    /** `remove_file` with its result ignored. What was quiet since `start` stays quiet. */
    method TryRemove(name: string, works: bool, ghost start: nat, ghost before: Directory)
      modifies `dir, `history
      ensures dir == if works then old(dir) - {name} else old(dir)
      ensures |history| >= |old(history)| && history[..|old(history)|] == old(history)
      ensures (name in old(dir) ==> Ignored(name)) && CalmSince(old(history), start, old(dir), before)
        ==> CalmSince(history, start, dir, before)
    {
      if works {
        ghost var was := dir;
        Change(dir - {name});
        if name in was ==> Ignored(name) {
          RemovalUnlisted(was, name);
        }
      }
    }

    /** `cleanup_raw`: best effort, file by file. */
    method Cleanup(leaf: string, ghost start: nat, ghost before: Directory)
      modifies `dir, `history
      ensures dir == old(dir) - Swept(leaf, codec, passphrase.Some?, answers.removals)
      ensures |history| >= |old(history)| && history[..|old(history)|] == old(history)
      ensures SidecarName(leaf) !in old(dir) && CalmSince(old(history), start, old(dir), before)
        ==> CalmSince(history, start, dir, before)
    {
      NamesApart(leaf, codec, passphrase.Some?);
      TryRemove(StreamName(leaf, codec, passphrase.Some?), answers.removals.stream, start, before);
      TryRemove(SidecarName(leaf), answers.removals.sidecar, start, before);
      TryRemove(TmpName(leaf), answers.removals.tmp, start, before);
      SweptInTurn(old(dir), leaf, codec, passphrase.Some?, answers.removals);
    }

    /** `list`: scan the sidecars in directory order, skip what does not parse, sort by age. */
    method List(order: seq<string>) returns (r: Result<seq<Entry>, ListError>)
      requires Distinct(order) && forall name :: name in order <==> name in dir
      ensures Listing(dir).Err? ==> r == Err(Listing(dir).error)
      ensures Listing(dir).Ok? ==>
        && r.Ok? && (forall e :: e in r.value <==> e in Listing(dir).value)
        && forall i, j :: 0 <= i < j < |r.value| ==> r.value[i].info.createdAt <= r.value[j].info.createdAt
    {
      var sidecars := Filter(order, IsSidecarName);
      if FS_UUID_FILE !in dir {
        if sidecars != [] {
          assert sidecars[0] in SidecarNames(dir);
          return Err(MissingUuid);
        }
        assert SidecarNames(dir) == {};
        return Ok([]);
      }
      if !dir[FS_UUID_FILE].UuidText? {
        return Err(BadUuid);
      }
      var u := dir[FS_UUID_FILE].uuid;
      var found: seq<Entry> := [];
      for i := 0 to |sidecars|
        invariant forall e :: e in found ==> e in Entries(dir, u)
        invariant forall k :: 0 <= k < i && dir[sidecars[k]].Sidecar? ==> Entry(dir[sidecars[k]].info, u) in found
      {
        assert sidecars[i] in SidecarNames(dir);
        if dir[sidecars[i]].Sidecar? {
          found := found + [Entry(dir[sidecars[i]].info, u)];
        }
      }
      forall e | e in Entries(dir, u) ensures e in found {
        var name :| name in SidecarNames(dir) && dir[name].Sidecar? && e == Entry(dir[name].info, u);
        assert name in sidecars;
        var k :| 0 <= k < |sidecars| && sidecars[k] == name;
      }
      AgeOrder();
      StableSortSorted(found, OlderFirst);
      SameElements(StableSort(found, OlderFirst), found);
      r := Ok(StableSort(found, OlderFirst));
    }

    /**
     `delete`: the stream first, then the sidecar. A sidecar whose stream is gone stays: its deletion
     fails every time.
     */
    method Delete(leaf: string) returns (ok: bool)
      modifies `dir, `budget, `history
      ensures ok ==> SidecarName(leaf) !in dir
      ensures
        var own := {SidecarName(leaf)} + StreamsOf(old(dir), leaf);
        && (ok ==> dir == old(dir) - own)
        && (forall k :: |old(history)| <= k < |history| ==> history[k] - own == old(dir) - own)
      ensures dir - {SidecarName(leaf)} - StreamsOf(old(dir), leaf)
        == old(dir) - {SidecarName(leaf)} - StreamsOf(old(dir), leaf)
      ensures !(StreamsOf(old(dir), leaf) <= old(dir).Keys) ==> !ok && dir == old(dir)
      ensures StreamsOf(old(dir), leaf) <= old(dir).Keys && old(budget) >= 3 ==> ok
    {
      var sidecar := SidecarName(leaf);
      ghost var streams := StreamsOf(dir, leaf);
      ghost var own := {sidecar} + streams;
      if sidecar in dir {
        ok := Io();
        if !ok {
          return;
        }
        if dir[sidecar].Sidecar? {
          var stream := dir[sidecar].info.streamFile;
          assert streams == {stream};
          ok := Io();
          if !ok || stream !in dir {
            return false;
          }
          Change(dir - {stream});
          assert dir - own == old(dir) - own;
        }
      }
      ghost var mid := dir;
      if sidecar in dir {
        ok := Io();
        if !ok {
          assert mid - {sidecar} - streams == old(dir) - {sidecar} - streams;
          return;
        }
        Change(dir - {sidecar});
      }
      ok := true;
      assert dir == old(dir) - own;
    }

    /** The transfer proper, once the directory's uuid is known. */
    method Transfer(leaf: string, source: Subvolume) returns (r: Result<SidecarInfo, RawError>)
      requires Prepared(dir) && leaf != ""
      modifies `dir, `budget, `history
      ensures |history| >= |old(history)| && history[..|old(history)|] == old(history)
      ensures r.Ok? ==>
        && source.uuid.Some? && r.value == InfoOf(leaf, source.uuid.value)
        && |history| > |old(history)| && history[|history| - 1] == dir
      ensures SidecarName(leaf) !in old(dir) ==>
        QuietUntil(history, |old(history)|, |history| - (if r.Ok? then 1 else 0), old(dir))
      ensures r.Ok? && Fresh(old(dir), leaf, codec, passphrase.Some?) && !EndsWith(leaf, ".tmp")
        ==> Published(old(dir), dir, r.value, Joined(answers.pipe.chunks))
      ensures r.Err? ==>
        && dir - OwnFiles(leaf, codec, passphrase.Some?) == old(dir) - OwnFiles(leaf, codec, passphrase.Some?)
        && Swept(leaf, codec, passphrase.Some?, answers.removals) !! dir.Keys
      ensures answers.Favorable() && source.uuid.Some? && old(budget) >= 4 ==> r.Ok?
    {
      NamesApart(leaf, codec, passphrase.Some?);
      var failure := Prepare(leaf, source);
      ghost var prepared, m := dir, |history|;
      if failure.None? {
        var renamed := Io();
        if renamed {
          Change((dir - {TmpName(leaf)})[SidecarName(leaf) := dir[TmpName(leaf)]]);
          PublishesOwn(old(dir), prepared, dir, leaf, codec, passphrase.Some?, InfoOf(leaf, source.uuid.value),
                       answers.pipe);
          EarlierStates(history, m, |old(history)|, old(dir));
          return Ok(InfoOf(leaf, source.uuid.value));
        }
        failure := Some(IoError);
      }
      Cleanup(leaf, |old(history)|, old(dir));
      r := Err(failure.value);
    }

    /**
     `send_receive`. `started` says whether the pipeline was started; `command` is how.

     With the uuid file in place the listing of a fresh leaf stays as it was until the one rename that
     publishes the entry together with its whole stream; without it, never.
     */
    method SendReceive(source: Subvolume, selection: ParentSelection)
      returns (r: Result<SidecarInfo, RawError>, ghost started: bool)
      modifies `dir, `budget, `history, `command
      // The pipeline begins with a send of this snapshot relative to this selection.
      ensures command == if started then SendArgs(source, selection) else old(command)
      ensures |history| >= |old(history)| && history[..|old(history)|] == old(history)
      ensures r.Ok? ==>
        && LeafOf(source).Some? && source.uuid.Some? && |history| > |old(history)| && history[|history| - 1] == dir
      // The record names the snapshot, and its words give the stream back.
      ensures r.Ok? ==> RecordsTransfer(r.value, source, answers) && Restorable(r.value, codec, passphrase)
      ensures LeafOf(source).Some? && Fresh(old(dir), LeafOf(source).value, codec, passphrase.Some?) ==>
        var end := |history| - if r.Ok? then 1 else 0;
        && (forall k :: |old(history)| <= k < end ==> Underway(old(dir), history[k], answers.fsUuid))
        && (QuietUntil(history, |old(history)|, end, old(dir)) <==> FS_UUID_FILE in old(dir) || old(budget) < 2)
      // A first transfer shows the half-written uuid file; one that breaks off there blocks all later ones.
      ensures LeafOf(source).Some? && FS_UUID_FILE !in old(dir) && old(budget) >= 2 ==>
        exists k :: |old(history)| <= k < |history| && Listing(history[k]) == Err(BadUuid) != Listing(old(dir))
      ensures FS_UUID_FILE in old(dir) && !Prepared(old(dir)) ==> r.Err? && !started && dir == old(dir)
      ensures r.Ok? && Fresh(old(dir), LeafOf(source).value, codec, passphrase.Some?)
              && !EndsWith(LeafOf(source).value, ".tmp")
        ==> PublishedSince(old(dir), answers.fsUuid, dir, r.value, Joined(answers.pipe.chunks))
      ensures r.Err? && !started ==> dir - {FS_UUID_FILE} == old(dir) - {FS_UUID_FILE}
      // After an error only the backup's own files can differ, and those whose removal works are gone.
      ensures r.Err? && started ==>
        && LeafOf(source).Some?
        && (var own := OwnFiles(LeafOf(source).value, codec, passphrase.Some?);
            dir - {FS_UUID_FILE} - own == old(dir) - {FS_UUID_FILE} - own)
        && Swept(LeafOf(source).value, codec, passphrase.Some?, answers.removals) !! dir.Keys
      // If all of them work, the directory is restored exactly when none of the files was there before.
      ensures r.Err? && started && answers.removals == Removals(true, true, true) ==>
        (dir - {FS_UUID_FILE} == old(dir) - {FS_UUID_FILE}
         <==> Fresh(old(dir), LeafOf(source).value, codec, passphrase.Some?))
      // It does succeed when the pipeline delivers and the file operations work.
      ensures answers.Favorable() && LeafOf(source).Some? && source.uuid.Some? && old(budget) >= 7
              && (FS_UUID_FILE in old(dir) ==> Prepared(old(dir)))
        ==> r.Ok?
    {
      started := false;
      if LeafOf(source).None? {
        return Err(NoLeaf), false;
      }
      var leaf := LeafOf(source).value;
      var ready := LoadOrCreateUuid();
      if !ready {
        if FS_UUID_FILE !in old(dir) && old(budget) >= 2 {
          ShownHalfWritten(old(dir), history, |old(history)|, |history|);
        }
        return Err(IoError), false;
      }
      var args := BuildSendArgs(source, selection);
      command, started := args, true;
      ghost var mid, n := dir, |history|;
      r := Transfer(leaf, source);
      FreshLater(old(dir), mid, leaf, codec, passphrase.Some?);
      ghost var start, end := |old(history)|, |history| - if r.Ok? then 1 else 0;
      if FS_UUID_FILE !in old(dir) {
        assert history[start] == history[..n][start];
        ShownHalfWritten(old(dir), history, start, end);
      }
      if Fresh(old(dir), leaf, codec, passphrase.Some?) {
        StatesUnderway(old(dir), mid, history, start, n, end, answers.fsUuid);
      }
      if r.Ok? && Fresh(old(dir), leaf, codec, passphrase.Some?) && !EndsWith(leaf, ".tmp") {
        PublishedFromStart(old(dir), answers.fsUuid, dir, r.value, Joined(answers.pipe.chunks));
      }
      if r.Ok? {
        TransferIsRecorded(r.value, source, answers);
        WordsRestore(r.value, codec, passphrase);
      }
      if r.Err? {
        RestoredApartFromOwn(old(dir), mid, dir, leaf, codec, passphrase.Some?);
      }
    }
  }

  /** The error path seen from before the uuid file was looked at. */
  lemma RestoredApartFromOwn(before: Directory, mid: Directory, dir: Directory, leaf: string, codec: Codec,
                             encrypted: bool)
    requires mid - {FS_UUID_FILE} == before - {FS_UUID_FILE}
    requires dir - OwnFiles(leaf, codec, encrypted) == mid - OwnFiles(leaf, codec, encrypted)
    ensures
      var own := OwnFiles(leaf, codec, encrypted);
      && dir - {FS_UUID_FILE} - own == before - {FS_UUID_FILE} - own
      && (own !! dir.Keys ==>
            (dir - {FS_UUID_FILE} == before - {FS_UUID_FILE} <==> Fresh(before, leaf, codec, encrypted)))
  {
    var own := OwnFiles(leaf, codec, encrypted);
    assert dir - {FS_UUID_FILE} - own == dir - own - {FS_UUID_FILE};
    assert mid - own - {FS_UUID_FILE} == mid - {FS_UUID_FILE} - own;
    if own !! dir.Keys {
      SweptClean(mid, dir, own);
      ErrorRestoresIffFresh(before, leaf, codec, encrypted);
    }
  }

  lemma FreshLater(before: Directory, mid: Directory, leaf: string, codec: Codec, encrypted: bool)
    requires mid - {FS_UUID_FILE} == before - {FS_UUID_FILE}
    ensures Fresh(mid, leaf, codec, encrypted) <==> Fresh(before, leaf, codec, encrypted)
  {
    NamesApart(leaf, codec, encrypted);
    OutsideSame(before, mid, {FS_UUID_FILE}, StreamName(leaf, codec, encrypted));
    OutsideSame(before, mid, {FS_UUID_FILE}, SidecarName(leaf));
    OutsideSame(before, mid, {FS_UUID_FILE}, TmpName(leaf));
  }

  /** The states of a whole transfer: those up to `n` from looking up the uuid, the others from the transfer proper. */
  lemma StatesUnderway(before: Directory, mid: Directory, history: seq<Directory>, start: nat, n: nat, end: nat,
                       fsUuid: Uuid)
    requires start <= n <= end <= |history| && mid == WithUuid(before, fsUuid)
    requires forall k :: start <= k < n ==> Underway(before, history[..n][k], fsUuid)
    requires QuietUntil(history, n, end, mid)
    ensures forall k :: start <= k < end ==> Underway(before, history[k], fsUuid)
    ensures FS_UUID_FILE in before && n == start ==> QuietUntil(history, start, end, before)
  {
    forall k | start <= k < end ensures Underway(before, history[k], fsUuid) {
      if k < n {
        assert history[k] == history[..n][k];
      }
    }
  }

  lemma ShownHalfWritten(before: Directory, history: seq<Directory>, start: nat, end: int)
    requires FS_UUID_FILE !in before && start < |history| && history[start] == before[FS_UUID_FILE := Malformed]
    ensures Listing(history[start]) == Err(BadUuid) != Listing(before)
    ensures start < end ==> !QuietUntil(history, start, end, before)
  {
    HalfWrittenShows(before);
  }

  lemma EarlierStates(history: seq<Directory>, m: nat, start: nat, dir: Directory)
    requires start <= m < |history| && Quiet(history[..m], start, dir)
    ensures QuietUntil(history, start, m, dir)
  {
    forall k | start <= k < m ensures Listing(history[k]) == Listing(dir) {
      assert history[k] == history[..m][k];
    }
  }

  /** The stream file the sidecar names, if the sidecar is there and readable. */
  function StreamsOf(dir: Directory, leaf: string): set<string> {
    if SidecarName(leaf) in dir && dir[SidecarName(leaf)].Sidecar? then {dir[SidecarName(leaf)].info.streamFile} else {}
  }

  predicate OlderFirst(a: Entry, b: Entry) { a.info.createdAt <= b.info.createdAt }

  lemma AgeOrder()
    ensures TotalPreorder(OlderFirst)
  {
  }

  /** The last component of the source's path. */
  function LeafOf(source: Subvolume): Option<string> {
    match source.path.FileName() case None => None case Some(leaf) => if leaf == "" then None else Some(leaf)
  }

  /**
   What the record of a transfer says: the stream's own new uuid and the time of the transfer; and as a
   subvolume of the listing it is read-only, carries the snapshot's name and, if the snapshot is
   read-only, counts as a copy of it.
   */
  ghost predicate RecordsTransfer(info: SidecarInfo, source: Subvolume, answers: Answers) {
    && info.uuid == answers.streamUuid && Some(info.receivedFrom) == source.uuid && info.createdAt == answers.now
    && forall fsUuid, id, dir :: IsBackupOf(ToSubvolume(Entry(info, fsUuid), id, dir), source, answers.now, dir, fsUuid)
  }

  /** A listed backup of `source` that was made at `now`. */
  ghost predicate IsBackupOf(b: Subvolume, source: Subvolume, now: nat, dir: Path, fsUuid: Uuid) {
    && b.readonly && b.cgen == now && b.parentUuid == None && b.mountpoint == dir && b.fsUuid == fsUuid
    && b.path.FileName() == source.path.FileName() && b.FullPath().Parent() == Some(dir)
    && b.receivedUuid == source.uuid && (source.readonly ==> SameContent(source, b))
  }

  /** An entry that records the snapshot's name and uuid is listed as a backup of it, and counts as its copy. */
  lemma EntryIsACopy(info: SidecarInfo, source: Subvolume, fsUuid: Uuid, id: nat, dir: Path)
    requires LeafOf(source) == Some(info.leaf) && source.uuid == Some(info.receivedFrom)
    ensures IsBackupOf(ToSubvolume(Entry(info, fsUuid), id, dir), source, info.createdAt, dir, fsUuid)
  {
    var b := ToSubvolume(Entry(info, fsUuid), id, dir);
    assert Names(info.receivedFrom, source) && Names(info.receivedFrom, b);
    assert b.FullPath().parts[..|dir.parts|] == dir.parts;
  }

  lemma TransferIsRecorded(info: SidecarInfo, source: Subvolume, answers: Answers)
    requires LeafOf(source) == Some(info.leaf) && source.uuid == Some(info.receivedFrom)
    requires info.uuid == answers.streamUuid && info.createdAt == answers.now
    ensures RecordsTransfer(info, source, answers)
  {
    forall fsUuid, id, dir
      ensures IsBackupOf(ToSubvolume(Entry(info, fsUuid), id, dir), source, answers.now, dir, fsUuid)
    {
      EntryIsACopy(info, source, fsUuid, id, dir);
    }
  }

  lemma OutsideSame(a: Directory, b: Directory, own: set<string>, name: string)
    requires a - own == b - own && name !in own
    ensures name in a <==> name in b
    ensures name in a ==> a[name] == b[name]
  {
    assert name in a - own <==> name in a;
    assert name in b - own <==> name in b;
    if name in a {
      assert (a - own)[name] == a[name] && (b - own)[name] == b[name];
    }
  }

  /** The rename publishes the entry with its stream. */
  lemma PublishesWhole(mid: Directory, prepared: Directory, dir: Directory, leaf: string, info: SidecarInfo,
                       bytes: seq<byte>)
    requires leaf != "" && Prepared(mid)
    requires Listing(prepared) == Listing(mid) && TmpName(leaf) in prepared && prepared[TmpName(leaf)] == Sidecar(info)
    requires dir == (prepared - {TmpName(leaf)})[SidecarName(leaf) := Sidecar(info)]
    requires FS_UUID_FILE in prepared && prepared[FS_UUID_FILE] == mid[FS_UUID_FILE]
    requires info.streamFile != TmpName(leaf) && info.streamFile != SidecarName(leaf)
    ensures SidecarName(leaf) !in prepared && !EndsWith(leaf, ".tmp")
            && info.streamFile in prepared && prepared[info.streamFile] == Stream(bytes) && bytes != []
      ==> Published(mid, dir, info, bytes)
  {
    if SidecarName(leaf) !in prepared && !EndsWith(leaf, ".tmp") {
      PublishAdds(prepared, leaf, info);
      NamesApart(leaf, Uncompressed, false);
    }
  }

  /** The rename at the end of a transfer publishes a fresh leaf. */
  lemma PublishesOwn(mid: Directory, prepared: Directory, dir: Directory, leaf: string, codec: Codec, encrypted: bool,
                     info: SidecarInfo, pipe: PipeAnswer)
    requires leaf != "" && Prepared(mid) && info.streamFile == StreamName(leaf, codec, encrypted)
    requires prepared - OwnFiles(leaf, codec, encrypted) == mid - OwnFiles(leaf, codec, encrypted)
    requires SidecarName(leaf) in prepared <==> SidecarName(leaf) in mid
    requires Listing(prepared) == Listing(mid) && TmpName(leaf) in prepared && prepared[TmpName(leaf)] == Sidecar(info)
    requires HasStream(prepared, info.streamFile, mid, pipe)
    requires dir == (prepared - {TmpName(leaf)})[SidecarName(leaf) := Sidecar(info)]
    ensures Fresh(mid, leaf, codec, encrypted) && !EndsWith(leaf, ".tmp")
      ==> Published(mid, dir, info, Joined(pipe.chunks))
  {
    NamesApart(leaf, codec, encrypted);
    OutsideSame(mid, prepared, OwnFiles(leaf, codec, encrypted), FS_UUID_FILE);
    PublishesWhole(mid, prepared, dir, leaf, info, Joined(pipe.chunks));
  }

  /**
   An error after the start of the pipeline restores the directory exactly when none of the three
   files was there before.
   */
  lemma ErrorRestoresIffFresh(before: Directory, leaf: string, codec: Codec, encrypted: bool)
    ensures before - {FS_UUID_FILE} - OwnFiles(leaf, codec, encrypted) == before - {FS_UUID_FILE}
       <==> Fresh(before, leaf, codec, encrypted)
  {
    NamesApart(leaf, codec, encrypted);
    var own := OwnFiles(leaf, codec, encrypted);
    if StreamName(leaf, codec, encrypted) in before {
      LosesOwn(before, own, StreamName(leaf, codec, encrypted));
    } else if SidecarName(leaf) in before {
      LosesOwn(before, own, SidecarName(leaf));
    } else if TmpName(leaf) in before {
      LosesOwn(before, own, TmpName(leaf));
    }
  }

  lemma LosesOwn(before: Directory, own: set<string>, name: string)
    requires name in own && name in before && name != FS_UUID_FILE
    ensures before - {FS_UUID_FILE} - own != before - {FS_UUID_FILE}
  {
    assert name in before - {FS_UUID_FILE} && name !in before - {FS_UUID_FILE} - own;
  }
}
