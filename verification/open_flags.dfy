/**
 * The open/create semantics engine of `src/sys/linux/fs.rs`: six boolean
 * intents plus caller-supplied custom flags become one `open(2)` flag word,
 * or the combination is refused with `EINVAL` before any syscall is issued.
 * Flag words are 32-bit (`c_int`) and modelled as `bv32`.
 */
module OpenFlags {
  import opened Io
  import CStr

  // Linux open(2) flags (Dafny has no octal literals; the octal value is in the comment).
  const O_RDONLY: bv32 := 0x0          // 0o0
  const O_WRONLY: bv32 := 0x1          // 0o1
  const O_RDWR: bv32 := 0x2            // 0o2
  const O_ACCMODE: bv32 := 0x3         // 0o3
  const O_CREAT: bv32 := 0x40          // 0o100
  const O_EXCL: bv32 := 0x80           // 0o200
  const O_TRUNC: bv32 := 0x200         // 0o1000
  const O_APPEND: bv32 := 0x400        // 0o2000
  const O_CLOEXEC: bv32 := 0x80000     // 0o2000000
  /** Architecture dependent; the model relies on it being a nonzero bit outside `O_ACCMODE` and the creation and append bits. */
  const O_LARGEFILE: bv32 := 0x8000    // 0o100000
  /** Architecture dependent; the custom flag `readdir` passes. */
  const O_DIRECTORY: bv32 := 0x10000   // 0o200000

  /** The flags other than the access mode that the open intents control. */
  const INTENT_BITS: bv32 := O_CREAT | O_EXCL | O_TRUNC | O_APPEND

  /** Every bit the engine itself may set. */
  const ENGINE_BITS: bv32 := O_CLOEXEC | O_LARGEFILE | O_ACCMODE | INTENT_BITS

  /** The default permission bits a new file is created with. */
  const DEFAULT_MODE: bv32 := 0x1B6    // 0o666

  /** `OpenOptions`: the open intents and the system-specific extras. */
  datatype Options = Options(
    read: bool,
    write: bool,
    append: bool,
    truncate: bool,
    create: bool,
    createNew: bool,
    customFlags: bv32,
    mode: bv32)

  /** `OpenOptions::new`: nothing requested, no custom flags, mode 0o666. */
  function NewOptions(): Options {
    Options(false, false, false, false, false, false, 0, DEFAULT_MODE)
  }

  /** The access mode a valid combination of `read`, `write` and `append` selects. */
  function AccessMode(o: Options): (r: Result<bv32>)
    ensures r.Err? <==> !o.read && !o.write && !o.append
    ensures r.Err? ==> r.error == Os(EINVAL)
    ensures r.Ok? ==> (r.value & O_APPEND != 0 <==> o.append)
    ensures r.Ok? ==> r.value & !(O_ACCMODE | O_APPEND) == 0
    ensures r.Ok? && o.read ==> r.value & O_ACCMODE == (if o.write || o.append then O_RDWR else O_RDONLY)
    ensures r.Ok? && !o.read ==> r.value & O_ACCMODE == O_WRONLY
  {
    if o.read && !o.write && !o.append then Ok(O_RDONLY)
    else if !o.read && o.write && !o.append then Ok(O_WRONLY)
    else if o.read && o.write && !o.append then Ok(O_RDWR)
    else if !o.read && o.append then Ok(O_WRONLY | O_APPEND)
    else if o.read && o.append then Ok(O_RDWR | O_APPEND)
    else Err(Os(EINVAL))
  }

  /**
   * The creation flags.  Creation semantics need write access (plain or
   * append), and append cannot be combined with truncation unless the file
   * is created afresh.
   */
  function CreationMode(o: Options): (r: Result<bv32>)
    ensures r.Err? <==>
              (!o.write && !o.append && (o.truncate || o.create || o.createNew))
              || (o.append && o.truncate && !o.createNew)
    ensures r.Err? ==> r.error == Os(EINVAL)
    ensures r.Ok? && o.createNew ==> r.value == O_CREAT | O_EXCL
    ensures r.Ok? && !o.createNew ==> r.value & O_EXCL == 0
    ensures r.Ok? && !o.createNew ==> (r.value & O_CREAT != 0 <==> o.create)
    ensures r.Ok? && !o.createNew ==> (r.value & O_TRUNC != 0 <==> o.truncate)
    ensures r.Ok? ==> r.value & !(O_CREAT | O_EXCL | O_TRUNC) == 0
  {
    var refused :=
      if o.write && !o.append then false
      else if !o.write && !o.append then o.truncate || o.create || o.createNew
      else o.truncate && !o.createNew;
    if refused then Err(Os(EINVAL))
    else if o.createNew then Ok(O_CREAT | O_EXCL)
    else if o.create && o.truncate then Ok(O_CREAT | O_TRUNC)
    else if o.create then Ok(O_CREAT)
    else if o.truncate then Ok(O_TRUNC)
    else Ok(0)
  }

  /** Every valid creation mode is one of the five flag combinations the engine knows. */
  lemma CreationModeValues(o: Options)
    requires CreationMode(o).Ok?
    ensures CreationMode(o).value in {0, O_CREAT, O_TRUNC, O_CREAT | O_TRUNC, O_CREAT | O_EXCL}
  {
  }

  /**
   * The flag word `File::open_c` passes to the kernel: close-on-exec,
   * large-file support, the access and creation modes, and the custom flags
   * with their access-mode bits masked out.
   */
  function Flags(o: Options): (r: Result<bv32>)
    ensures r.Err? <==> AccessMode(o).Err? || CreationMode(o).Err?
    ensures r.Err? ==> r.error == Os(EINVAL)
    ensures r.Ok? ==> r.value & O_ACCMODE == AccessMode(o).value & O_ACCMODE
    ensures r.Ok? ==> r.value & O_CLOEXEC != 0 && r.value & O_LARGEFILE != 0
    ensures r.Ok? ==> r.value & AccessMode(o).value == AccessMode(o).value
    ensures r.Ok? ==> r.value & CreationMode(o).value == CreationMode(o).value
    // Nothing else: each intent bit comes from one of the two modes or the custom
    // flags, and every bit the engine never sets itself is the custom flags' bit.
    ensures r.Ok? ==>
              r.value & INTENT_BITS == (AccessMode(o).value | CreationMode(o).value | o.customFlags) & INTENT_BITS
    ensures r.Ok? ==> r.value & !ENGINE_BITS == o.customFlags & !ENGINE_BITS
  {
    match AccessMode(o)
    case Err(e) => Err(e)
    case Ok(access) =>
      match CreationMode(o)
      case Err(e) => Err(e)
      case Ok(creation) =>
        Ok(Word(access, creation, o.customFlags))
  }

  /** The word `open_c` ORs together from its five parts. */
  function Word(access: bv32, creation: bv32, custom: bv32): bv32 {
    O_CLOEXEC | O_LARGEFILE | access | creation | (custom & !O_ACCMODE)
  }

  /** The custom flags reach the kernel, all but their access-mode bits. */
  lemma FlagsCarryCustom(o: Options)
    requires Flags(o).Ok?
    ensures Flags(o).value & (o.customFlags & !O_ACCMODE) == o.customFlags & !O_ACCMODE
  {
  }

  /**
   * Without custom flags, the file is truncated exactly when truncation was
   * asked for and the file is not created afresh.
   */
  lemma TruncateOnlyWhenAsked(o: Options)
    requires Flags(o).Ok? && o.customFlags & O_TRUNC == 0
    ensures Flags(o).value & O_TRUNC != 0 <==> o.truncate && !o.createNew
  {
  }

  /** Custom flags can add bits to the flag word but never change its access mode. */
  lemma CustomFlagsKeepAccessMode(o: Options, custom: bv32)
    requires Flags(o).Ok?
    ensures Flags(o.(customFlags := custom)).Ok?
    ensures Flags(o.(customFlags := custom)).value & O_ACCMODE == Flags(o).value & O_ACCMODE
  {
  }

  /**
   * How the access bits of a descriptor's flag word read back as
   * `(readable, writable)`; the `Debug` implementation of `File` decodes
   * `F_GETFL` this way, and the fourth bit pattern is not an access mode.
   */
  function AccessOfFlags(flags: bv32): (r: Option<(bool, bool)>)
    ensures r.None? <==> flags & O_ACCMODE == O_ACCMODE
    ensures r.Some? ==> (r.value.0 <==> flags & O_ACCMODE != O_WRONLY)
    ensures r.Some? ==> (r.value.1 <==> flags & O_ACCMODE != O_RDONLY)
  {
    var acc := flags & O_ACCMODE;
    if acc == O_RDONLY then Some((true, false))
    else if acc == O_RDWR then Some((true, true))
    else if acc == O_WRONLY then Some((false, true))
    else None
  }

  /**
   * The flag word round-trips the intent: decoding its access bits yields
   * exactly "readable iff `read`" and "writable iff `write` or `append`".
   */
  lemma AccessRoundTrip(o: Options)
    requires Flags(o).Ok?
    ensures AccessOfFlags(Flags(o).value) == Some((o.read, o.write || o.append))
  {
  }

  /** The request `open(2)` receives: the NUL-terminated path, the flags and the mode. */
  datatype OpenRequest = OpenRequest(path: seq<byte>, flags: bv32, mode: bv16)

  /** What one call to `File::open` did: the syscall it issued, if any, and its result. */
  datatype OpenOutcome = OpenOutcome(issued: Option<OpenRequest>, result: Result<int>)

  /**
   * `File::open` followed by `File::open_c`.  The kernel is an oracle:
   * `kernelOpen` is what `open(2)` answers (a descriptor or an error) and
   * `kernelCloexec` what setting close-on-exec on that descriptor answers.
   * The mode is narrowed to 16 bits, as `open_c` casts it to `c_ushort`.
   */
  function Open(path: seq<byte>, o: Options, kernelOpen: Result<int>, kernelCloexec: Result<()>)
    : (r: OpenOutcome)
    ensures r.issued.None? <==> 0 in path || Flags(o).Err?
    ensures r.issued.None? ==> r.result.Err?
    ensures 0 in path ==> r.result == Err(Simple(InvalidInput))
    ensures 0 !in path && Flags(o).Err? ==> r.result == Err(Os(EINVAL))
    ensures r.issued.Some? ==> r.issued.value.flags == Flags(o).value
    ensures r.issued.Some? ==> r.issued.value.path == path + [0]
    ensures r.issued.Some? ==> CStr.Prefix(r.issued.value.path) == path
    ensures r.issued.Some? ==> r.issued.value.mode as bv32 == o.mode & 0xFFFF
    ensures r.result.Ok? <==> r.issued.Some? && kernelOpen.Ok? && kernelCloexec.Ok?
    ensures r.result.Ok? ==> r.result.value == kernelOpen.value
    // A failed syscall's error is passed on unchanged.
    ensures r.issued.Some? && kernelOpen.Err? ==> r.result == Err(kernelOpen.error)
    ensures r.issued.Some? && kernelOpen.Ok? && kernelCloexec.Err? ==> r.result == Err(kernelCloexec.error)
  {
    match CStr.ToCString(path)
    case Err(e) => OpenOutcome(None, Err(e))
    case Ok(cpath) =>
      CStr.CStringRoundTrip(path);
      match Flags(o)
      case Err(e) => OpenOutcome(None, Err(e))
      case Ok(flags) =>
        var request := OpenRequest(cpath, flags, (o.mode & 0xFFFF) as bv16);
        match kernelOpen
        case Err(e) => OpenOutcome(Some(request), Err(e))
        case Ok(fd) =>
          match kernelCloexec
          case Err(e) => OpenOutcome(Some(request), Err(e))
          case Ok(_) => OpenOutcome(Some(request), Ok(fd))
  }

  /** The options `readdir` opens a directory with: read access plus `O_DIRECTORY`. */
  function ReaddirOptions(): Options {
    NewOptions().(read := true, customFlags := O_DIRECTORY)
  }

  /** A directory is opened read-only, without creation flags, and as a directory. */
  lemma ReaddirFlags()
    ensures Flags(ReaddirOptions()) == Ok(O_CLOEXEC | O_LARGEFILE | O_RDONLY | O_DIRECTORY)
  {
  }

  /** Fresh options request no access at all and are therefore refused. */
  lemma NewOptionsRefused()
    ensures Flags(NewOptions()) == Err(Os(EINVAL))
  {
  }
}
