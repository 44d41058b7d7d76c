/** Local persistence of backups: the timestamped file name a backup gets,
    the listing of the backup directory with the backup type read back out
    of each file name, and the path a backup ID stands for. The file system
    is an input: a directory listing is a sequence of entries and a file is
    what reading it yields. Instants are integers (for instance Unix
    nanoseconds) and the local calendar reading of an instant is given
    alongside it. */
module Storage {
  import opened Wrappers
  import opened Text
  import opened Json
  import opened TimeLayout

  datatype Store = Store(dataDir: string, backupDir: string)

  /** `BackupMetadata`. `Items` is never filled in by the store. */
  datatype BackupMetadata = BackupMetadata(
    id: string,
    timestamp: int,
    backupType: string,
    items: int,
    size: int)

  // ---------------------------------------------------------------------
  // File names and paths

  const JsonExt: string := ".json"

  /** The name of a backup file: `<type>-<stamp>.json`. */
  function BackupFileName(backupType: string, t: DateTime): (r: string)
    ensures HasSuffix(r, JsonExt)
    ensures backupType + "-" <= r
  {
    backupType + "-" + Stamp(t) + JsonExt
  }

  /** `filepath.Join(dir, name)` for a plain directory and a plain name;
      an empty element is dropped. */
  function PathJoin(dir: string, name: string): (r: string)
    ensures dir == "" ==> r == name
    ensures dir != "" && name != "" ==> r == dir + "/" + name
  {
    if dir == "" then name else if name == "" then dir else dir + "/" + name
  }

  /** `GetBackupPath`. */
  function GetBackupPath(s: Store, backupId: string): (r: string)
    ensures s.backupDir != "" && backupId != "" ==> s.backupDir + "/" <= r && r[|s.backupDir| + 1..] == backupId
    ensures s.backupDir == "" ==> r == backupId
  {
    PathJoin(s.backupDir, backupId)
  }

  /** What opening and decoding one file yields. */
  datatype FileContent = Missing(error: string) | Content(decoded: Result<JValue>)

  /** `CreateBackup`: the metadata of the new backup and the path written.
      `write` stands for creating, encoding and sizing the file at a path
      and gives the size or the message of the step that failed. */
  datatype Created = Created(meta: BackupMetadata, path: string)

  function CreateBackup(
    s: Store, backupType: string, now: int, clock: DateTime, write: string -> Result<int>): (r: Result<Created>)
    ensures var name := BackupFileName(backupType, clock);
      && (r.Ok? <==> write(PathJoin(s.backupDir, name)).Ok?)
      && (r.Ok? ==> r.value.meta.id == name && r.value.meta.backupType == backupType
                    && r.value.meta.timestamp == now
                    && r.value.meta.size == write(PathJoin(s.backupDir, name)).value)
    ensures r.Ok? ==> r.value.path == GetBackupPath(s, r.value.meta.id)
  {
    var name := BackupFileName(backupType, clock);
    var path := PathJoin(s.backupDir, name);
    match write(path)
    case Err(e) => Err(e)
    case Ok(size) => Ok(Created(BackupMetadata(name, now, backupType, 0, size), path))
  }

  /** `LoadBackupJSON`: reads the file `GetBackupPath` names. */
  function LoadBackupJson(s: Store, backupId: string, fs: string -> FileContent): (r: Result<JValue>)
    ensures fs(GetBackupPath(s, backupId)) == Content(Ok(JNull)) ==> r == Ok(JNull)
    ensures r.Err? <==> !fs(GetBackupPath(s, backupId)).Content? || fs(GetBackupPath(s, backupId)).decoded.Err?
    ensures fs(GetBackupPath(s, backupId)).Missing? ==>
      r == Err("failed to open backup file: " + fs(GetBackupPath(s, backupId)).error)
  {
    match fs(GetBackupPath(s, backupId))
    case Missing(e) => Err("failed to open backup file: " + e)
    case Content(Err(e)) => Err("failed to decode backup JSON: " + e)
    case Content(Ok(v)) => Ok(v)
  }

  /** The file system after `path` has been written with `v`. */
  function Written(fs: string -> FileContent, path: string, v: JValue): string -> FileContent
  {
    q => if q == path then Content(Ok(v)) else fs(q)
  }

  /** Loading depends on no file but the one `GetBackupPath` names. */
  lemma LoadReadsOnlyBackupPath(s: Store, backupId: string, fs1: string -> FileContent, fs2: string -> FileContent)
    requires fs1(GetBackupPath(s, backupId)) == fs2(GetBackupPath(s, backupId))
    ensures LoadBackupJson(s, backupId, fs1) == LoadBackupJson(s, backupId, fs2)
  {
  }

  /** The ID a backup is created under leads back to the path it was
      written to: loading by that ID reads whatever that path holds. */
  lemma CreateThenLoad(
    s: Store, backupType: string, now: int, clock: DateTime, write: string -> Result<int>,
    fs: string -> FileContent, data: JValue)
    requires CreateBackup(s, backupType, now, clock, write).Ok?
    ensures var c := CreateBackup(s, backupType, now, clock, write).value;
      LoadBackupJson(s, c.meta.id, Written(fs, c.path, data)) == Ok(data)
  {
  }

  // ---------------------------------------------------------------------
  // Listing the backup directory

  /** `filepath.Ext`: the position of the dot that starts the extension of
      the last path element, or -1 when it has none. */
  function ExtStart(path: string): (r: int)
    ensures -1 <= r < |path|
    ensures r >= 0 ==> path[r] == '.' && Free(path[r + 1..], '.')
  {
    if |path| == 0 || path[|path| - 1] == '/' then -1
    else if path[|path| - 1] == '.' then |path| - 1
    else ExtStart(path[..|path| - 1])
  }

  function Ext(path: string): (r: string)
    ensures r == "" || (r[0] == '.' && HasSuffix(path, r))
  {
    var k := ExtStart(path);
    if k < 0 then "" else path[k..]
  }

  lemma ExtStartSkip(path: string, c: char)
    requires c != '.' && c != '/'
    ensures ExtStart(path + [c]) == ExtStart(path)
  {
    assert (path + [c])[..|path|] == path;
  }

  /** A name has the ".json" extension exactly when it ends in ".json". */
  lemma JsonExtension(name: string)
    ensures Ext(name) == JsonExt <==> HasSuffix(name, JsonExt)
  {
    if HasSuffix(name, JsonExt) {
      var p := name[..|name| - 5];
      assert name == p + "." + "j" + "s" + "o" + "n";
      ExtStartSkip(p + ".", 'j');
      ExtStartSkip(p + "." + "j", 's');
      ExtStartSkip(p + "." + "j" + "s", 'o');
      ExtStartSkip(p + "." + "j" + "s" + "o", 'n');
      assert (p + ".")[..|p|] == p;
      assert ExtStart(p + ".") == |p|;
    }
  }

  /** The backup type read out of a file name: the text before the second
      to last dash, or before the last one when there is only one, or
      nothing when no dash follows the first character. */
  function ParseType(name: string): (r: string)
    ensures r <= name
    ensures LastIndex(name, '-') <= 0 ==> r == ""
  {
    var idx := LastIndex(name, '-');
    if idx > 0 then
      var prefix := name[..idx];
      var idx2 := LastIndex(prefix, '-');
      if idx2 > 0 then prefix[..idx2] else prefix
    else ""
  }

  /** The last occurrence of `c` in `a + [c] + b` when `b` has none. */
  lemma {:induction false} LastIndexSplit(a: string, c: char, b: string)
    requires Free(b, c)
    ensures LastIndex(a + [c] + b, c) == |a|
  {
    var s := a + [c] + b;
    if |b| > 0 {
      assert s[..|s| - 1] == a + [c] + b[..|b| - 1];
      LastIndexSplit(a, c, b[..|b| - 1]);
    } else {
      assert s == a + [c];
    }
  }

  /** How a name of the form `<type>-<mid>-<tail>` parses when neither `mid`
      nor `tail` holds a dash. */
  lemma ParseTypeOf(ty: string, mid: string, tail: string)
    requires Free(mid, '-') && Free(tail, '-')
    ensures ParseType(ty + "-" + mid + "-" + tail) == if ty == "" then "-" + mid else ty
  {
    var name := ty + "-" + mid + "-" + tail;
    var prefix := ty + "-" + mid;
    assert name == prefix + "-" + tail;
    LastIndexSplit(prefix, '-', tail);
    assert name[..|prefix|] == prefix;
    LastIndexSplit(ty, '-', mid);
    assert prefix[..|ty|] == ty;
  }

  /** A backup file name splits at its last two dashes into the type, the
      date and the rest. */
  lemma FileNameParts(backupType: string, t: DateTime)
    ensures BackupFileName(backupType, t) == backupType + "-" + DatePart(t) + "-" + (ClockPart(t) + JsonExt)
  {
    StampParts(t);
    Regroup(backupType, DatePart(t), ClockPart(t), JsonExt);
  }

  lemma Regroup(a: string, b: string, c: string, d: string)
    ensures a + "-" + (b + "-" + c) + d == a + "-" + b + "-" + (c + d)
  {
  }

  /** Neither the date nor what follows the second dash holds a dash. */
  lemma DashFreeParts(t: DateTime)
    ensures Free(DatePart(t), '-') && Free(ClockPart(t) + JsonExt, '-')
  {
    DigitsDashFree(DatePart(t));
    DigitsDashFree(ClockPart(t));
  }

  lemma DigitsDashFree(s: string)
    requires AllDigits(s)
    ensures Free(s, '-') && Free(s + JsonExt, '-')
  {
    DigitsFree(s);
    assert Free(JsonExt, '-');
    FreeConcat(s, JsonExt, '-');
  }

  /** The type of any non-empty backup type, dashes included, reads back
      out of the name the backup was given. */
  lemma TypeRoundTrip(backupType: string, t: DateTime)
    requires backupType != ""
    ensures ParseType(BackupFileName(backupType, t)) == backupType
  {
    FileNameParts(backupType, t);
    DashFreeParts(t);
    ParseTypeOf(backupType, DatePart(t), ClockPart(t) + JsonExt);
  }

  /** An empty backup type does not read back: the name starts with its
      dash, so the date is taken for the type. */
  lemma EmptyTypeReadsDate(t: DateTime)
    ensures ParseType(BackupFileName("", t)) == "-" + DatePart(t)
  {
    FileNameParts("", t);
    DashFreeParts(t);
    ParseTypeOf("", DatePart(t), ClockPart(t) + JsonExt);
  }

  /** A name with no dash after its first character has no type. */
  lemma NoDashNoType(name: string)
    requires forall j :: 0 < j < |name| ==> name[j] != '-'
    ensures ParseType(name) == ""
  {
  }

  datatype FileInfo = FileInfo(modTime: int, size: int)

  /** One entry of a directory listing; `info` fails when the entry can no
      longer be examined. */
  datatype DirEntry = DirEntry(name: string, isDir: bool, info: Result<FileInfo>)

  /** What reading the backup directory yields. */
  datatype DirListing = NotExist | ReadFailed(error: string) | Entries(entries: seq<DirEntry>)

  /** The entries the listing reports: files with the ".json" extension
      whose information can be read. */
  predicate IsBackupEntry(e: DirEntry)
  {
    !e.isDir && Ext(e.name) == JsonExt && e.info.Ok?
  }

  function MetadataOf(e: DirEntry): (r: BackupMetadata)
    requires e.info.Ok?
    ensures r.id == e.name && r.backupType == ParseType(e.name)
    ensures r.timestamp == e.info.value.modTime && r.size == e.info.value.size
  {
    BackupMetadata(e.name, e.info.value.modTime, ParseType(e.name), 0, e.info.value.size)
  }

  /** The metadata of the backup entries, in listing order. */
  function Listed(entries: seq<DirEntry>): (r: seq<BackupMetadata>)
    ensures |r| <= |entries|
    ensures forall i :: 0 <= i < |r| ==> HasSuffix(r[i].id, JsonExt)
  {
    if |entries| == 0 then []
    else
      var e := entries[|entries| - 1];
      var rest := Listed(entries[..|entries| - 1]);
      if IsBackupEntry(e) then
        JsonExtension(e.name);
        rest + [MetadataOf(e)]
      else rest
  }

  /** Every backup entry is listed, and every listed item is the metadata
      of a backup entry. */
  lemma {:induction false} ListedExactly(entries: seq<DirEntry>, e: DirEntry, m: BackupMetadata)
    ensures e in entries && IsBackupEntry(e) ==> MetadataOf(e) in Listed(entries)
    ensures m in Listed(entries) ==> exists d :: d in entries && IsBackupEntry(d) && m == MetadataOf(d)
  {
    if |entries| > 0 {
      var init := entries[..|entries| - 1];
      var last := entries[|entries| - 1];
      assert entries == init + [last];
      ListedExactly(init, e, m);
      if m in Listed(entries) && m !in Listed(init) {
        assert IsBackupEntry(last) && m == MetadataOf(last);
      }
      if m in Listed(init) {
        var d :| d in init && IsBackupEntry(d) && m == MetadataOf(d);
        assert d in entries;
      }
    }
  }

  /** `ListBackups`: a missing directory is an empty list, not an error. */
  function ListBackups(dir: DirListing): (r: Result<seq<BackupMetadata>>)
    ensures dir.NotExist? ==> r == Ok([])
    ensures r.Err? <==> dir.ReadFailed?
    ensures dir.ReadFailed? ==> r.error == "failed to read backup directory: " + dir.error
    ensures dir.Entries? ==> r == Ok(Listed(dir.entries))
  {
    match dir
    case NotExist => Ok([])
    case ReadFailed(e) => Err("failed to read backup directory: " + e)
    case Entries(es) => Ok(Listed(es))
  }

  /** A backup file that `CreateBackup` named is listed under that name, with
      its type read back, when the type is non-empty. */
  lemma CreatedIsListed(entries: seq<DirEntry>, backupType: string, t: DateTime, info: FileInfo)
    requires backupType != ""
    requires DirEntry(BackupFileName(backupType, t), false, Ok(info)) in entries
    ensures BackupMetadata(BackupFileName(backupType, t), info.modTime, backupType, 0, info.size)
      in Listed(entries)
  {
    var e := DirEntry(BackupFileName(backupType, t), false, Ok(info));
    JsonExtension(e.name);
    TypeRoundTrip(backupType, t);
    ListedExactly(entries, e, MetadataOf(e));
  }
}
