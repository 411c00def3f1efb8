/**
 * File metadata as the kernel reports it in `st_mode`: the permission view
 * (`FilePermissions`), the type view (`FileType`) and the translation of a
 * directory entry's inline `d_type` tag into a file type.  `mode_t` is a
 * 32-bit word here, modelled as `bv32`.
 */
module FileMode {
  import opened Io

  // Permission masks (octal in the comments).
  const PERM_MASK: bv32 := 0x1FF       // 0o777
  const WRITE_BITS: bv32 := 0x92       // 0o222: owner, group and other write

  // File-format field of st_mode and its tags.
  const S_IFMT: bv32 := 0xF000         // 0o170000
  const S_IFSOCK: bv32 := 0xC000       // 0o140000
  const S_IFLNK: bv32 := 0xA000        // 0o120000
  const S_IFREG: bv32 := 0x8000        // 0o100000
  const S_IFBLK: bv32 := 0x6000        // 0o060000
  const S_IFDIR: bv32 := 0x4000        // 0o040000
  const S_IFCHR: bv32 := 0x2000        // 0o020000
  const S_IFIFO: bv32 := 0x1000        // 0o010000

  // Inline type tags of a getdents64 record.
  const DT_UNKNOWN: bv8 := 0
  const DT_FIFO: bv8 := 1
  const DT_CHR: bv8 := 2
  const DT_DIR: bv8 := 4
  const DT_BLK: bv8 := 6
  const DT_REG: bv8 := 8
  const DT_LNK: bv8 := 10
  const DT_SOCK: bv8 := 12

  /** The part of a `stat64` record this model reads. */
  datatype Stat = Stat(mode: bv32)

  /** `FileAttr`: a snapshot of one stat record. */
  datatype FileAttr = FileAttr(stat: Stat)

  datatype Permissions = Permissions(mode: bv32)

  datatype FileType = FileType(mode: bv32)

  /** `FileAttr::perm`: the nine permission bits of the mode, nothing else. */
  function Perm(a: FileAttr): (p: Permissions)
    ensures p.mode & !PERM_MASK == 0
    ensures p.mode & PERM_MASK == a.stat.mode & PERM_MASK
  {
    Permissions(a.stat.mode & PERM_MASK)
  }

  /** `FileAttr::file_type`: the type view keeps the whole mode word. */
  function TypeOf(a: FileAttr): FileType {
    FileType(a.stat.mode)
  }

  /** `FilePermissions::readonly`: nobody may write. */
  predicate Readonly(p: Permissions) {
    p.mode & WRITE_BITS == 0
  }

  /**
   * `FilePermissions::set_readonly`: clears all three write bits, or sets
   * all three, and leaves every other bit as it was.
   */
  function SetReadonly(p: Permissions, readonly: bool): (q: Permissions)
    ensures Readonly(q) <==> readonly
    ensures !readonly ==> q.mode & WRITE_BITS == WRITE_BITS
    ensures q.mode & !WRITE_BITS == p.mode & !WRITE_BITS
  {
    if readonly then Permissions(p.mode & !WRITE_BITS)
    else Permissions(p.mode | WRITE_BITS)
  }

  /** Setting the read-only flag twice to the same value is the same as setting it once. */
  lemma SetReadonlyIdempotent(p: Permissions, readonly: bool)
    ensures SetReadonly(SetReadonly(p, readonly), readonly) == SetReadonly(p, readonly)
  {
  }

  /** Making a file read-only and then writable again gives back an originally writable-by-all mode. */
  lemma SetReadonlyUndo(p: Permissions)
    requires p.mode & WRITE_BITS == WRITE_BITS
    ensures SetReadonly(SetReadonly(p, true), false) == p
  {
  }

  /** Toggling read-only on the permissions of a stat record stays within the nine permission bits. */
  lemma SetReadonlyKeepsPermBits(a: FileAttr, readonly: bool)
    ensures SetReadonly(Perm(a), readonly).mode & !PERM_MASK == 0
  {
  }

  /** `FileType::is`: the file-format field equals the given tag. */
  predicate Is(t: FileType, tag: bv32) {
    t.mode & S_IFMT == tag
  }

  predicate IsDir(t: FileType) { Is(t, S_IFDIR) }
  predicate IsFile(t: FileType) { Is(t, S_IFREG) }
  predicate IsSymlink(t: FileType) { Is(t, S_IFLNK) }

  /** A file has at most one of the three types. */
  lemma TypesExclusive(t: FileType)
    ensures !(IsDir(t) && IsFile(t))
    ensures !(IsDir(t) && IsSymlink(t))
    ensures !(IsFile(t) && IsSymlink(t))
  {
  }

  /** The type of a file does not depend on its permission bits, nor its permissions on its type. */
  lemma TypeAndPermIndependent(mode: bv32, perm: bv32, tag: bv32)
    ensures Is(FileType((mode & !PERM_MASK) | (perm & PERM_MASK)), tag) <==> Is(FileType(mode), tag)
    ensures Perm(FileAttr(Stat((mode & S_IFMT) | (perm & !S_IFMT)))).mode == perm & PERM_MASK
  {
  }

  /** The known inline type tags and the `S_IF*` tag each one stands for. */
  function ModeOfDtype(dtype: bv8): (r: Option<bv32>)
    ensures r.Some? <==> dtype in {DT_FIFO, DT_CHR, DT_DIR, DT_BLK, DT_REG, DT_LNK, DT_SOCK}
    ensures r.Some? ==> r.value == (dtype as bv32) << 12
    ensures r.Some? ==> r.value & !S_IFMT == 0 && r.value != 0
  {
    if dtype == DT_CHR then Some(S_IFCHR)
    else if dtype == DT_FIFO then Some(S_IFIFO)
    else if dtype == DT_LNK then Some(S_IFLNK)
    else if dtype == DT_REG then Some(S_IFREG)
    else if dtype == DT_SOCK then Some(S_IFSOCK)
    else if dtype == DT_DIR then Some(S_IFDIR)
    else if dtype == DT_BLK then Some(S_IFBLK)
    else None
  }

  /**
   * The kernel's own correspondence between the two encodings: a `d_type`
   * tag is the file-format field shifted right by twelve bits.
   */
  function DtypeOfMode(mode: bv32): bv8 {
    ((mode & S_IFMT) >> 12) as bv8
  }

  /** The table agrees with the kernel's shift relation, in both directions. */
  lemma ModeOfDtypeMatchesShift(dtype: bv8)
    ensures ModeOfDtype(dtype).Some? ==> DtypeOfMode(ModeOfDtype(dtype).value) == dtype
    ensures ModeOfDtype(dtype).Some? ==> ModeOfDtype(dtype).value == (dtype as bv32) << 12
    ensures dtype == DT_UNKNOWN ==> ModeOfDtype(dtype).None?
  {
  }

  /** A mode word whose shifted format field is a known tag maps back to that format field. */
  lemma DtypeOfModeRoundTrip(mode: bv32)
    requires ModeOfDtype(DtypeOfMode(mode)).Some?
    ensures ModeOfDtype(DtypeOfMode(mode)).value == mode & S_IFMT
  {
  }

  /**
   * `DirEntry::file_type`: a known inline tag answers directly; any other
   * tag falls back to the entry's `lstat` record.  `lstat` is the answer
   * the kernel would give for the entry's path; it is consulted only in
   * the fallback case.
   */
  function FileTypeOfEntry(dtype: bv8, lstat: Result<FileAttr>): (r: Result<FileType>)
    ensures ModeOfDtype(dtype).Some? ==> r.Ok? && r.value.mode == (dtype as bv32) << 12
    ensures ModeOfDtype(dtype).None? && lstat.Ok? ==> r == Ok(TypeOf(lstat.value))
    ensures ModeOfDtype(dtype).None? && lstat.Err? ==> r == Err(lstat.error)
  {
    match ModeOfDtype(dtype)
    case Some(mode) => Ok(FileType(mode))
    case None =>
      match lstat
      case Ok(attr) => Ok(TypeOf(attr))
      case Err(e) => Err(e)
  }

  /** A known tag never needs the `lstat` fallback: the answer is the same whatever it would say. */
  lemma KnownTagIgnoresLstat(dtype: bv8, l1: Result<FileAttr>, l2: Result<FileAttr>)
    requires ModeOfDtype(dtype).Some?
    ensures FileTypeOfEntry(dtype, l1) == FileTypeOfEntry(dtype, l2)
    ensures FileTypeOfEntry(dtype, l1).Ok?
  {
  }

  /** The inline tags for directories, regular files and symlinks classify as such. */
  lemma KnownTagsClassify(lstat: Result<FileAttr>)
    ensures IsDir(FileTypeOfEntry(DT_DIR, lstat).value)
    ensures IsFile(FileTypeOfEntry(DT_REG, lstat).value)
    ensures IsSymlink(FileTypeOfEntry(DT_LNK, lstat).value)
  {
  }

  /** An entry's answer agrees with what `lstat` would report whenever the two sources agree on the tag. */
  lemma EntryTypeAgreesWithLstat(dtype: bv8, attr: FileAttr)
    requires dtype == DtypeOfMode(attr.stat.mode)
    ensures FileTypeOfEntry(dtype, Ok(attr)).Ok?
    ensures FileTypeOfEntry(dtype, Ok(attr)).value.mode & S_IFMT == attr.stat.mode & S_IFMT
  {
  }
}
