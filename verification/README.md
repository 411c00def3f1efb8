# steed Linux syscall layer — a Dafny model

This project models the parts of steed's Linux system layer that have
behaviour you can state without a kernel:

- **Open-flag engine** (`src/sys/linux/fs.rs`). `OpenOptions` holds six
  intents: read, write, append, truncate, create and create-new. It also
  holds custom flags and a mode. `File::open` turns these into one `open(2)`
  flag word. It refuses an incoherent combination with `EINVAL` before any
  syscall is issued.
- **Mode bits** (`src/sys/linux/fs.rs`). The permission view of `st_mode`
  (`FileAttr::perm`, `FilePermissions`) and the type view (`FileType::is*`).
  Also the mapping from a directory entry's inline `d_type` tag to a file
  type, with its `lstat` fallback.
- **Directory stream** (`ReadDir::next`). It holds a 32 KiB buffer of
  getdents64 records and a byte cursor. It refills only at the end of the
  buffer and steps over one record per call. It is exhausted for good after
  the first empty read or the first error.
- **`readlink`**. The buffer-growth loop retries with a larger buffer until
  the kernel writes fewer bytes than the buffer holds.
- **Argument singleton** (`src/sys/linux/args.rs`). `init`, `cleanup` and
  `args` act on a process-wide `Option<Vec<Vec<u8>>>`. `Args` is a
  double-ended, exact-size iterator over an owned copy.
- **`libc::strlen`** (`src/lib.rs`). The first-NUL search, and the "bytes
  before the first NUL" rule shared with entry names and arguments.

Kernel calls are oracles passed in as parameters:

- `kernelOpen` and `kernelCloexec` are what `open(2)` and the close-on-exec
  call answer.
- `kernel: seq<Batch>` is the getdents64 answers, in order.
- `link` is the text or error readlink(2) reports for a path.
- `lstat` is the record `lstat` would return for an entry's path.

Flag and mode words are `bv32` (`c_int`, `mode_t`). The mode handed to
`open(2)` is narrowed to `bv16`, as `open_c` casts it to `c_ushort`. Bytes
are `bv8`. Dafny has no octal literals, so constants are written in hex with
the octal value beside them.

Modules:

- `Io`: `Result`, `Option`, errors, `EINVAL`.
- `CStr`: NUL-terminated strings.
- `OpenFlags`: the open-flag engine.
- `FileMode`: mode bits.
- `ReadDir`: the directory stream.
- `Readlink`: the readlink loop.
- `Args`: the argument singleton.

The flag values are the Linux ones: `O_RDONLY` 0, `O_WRONLY` 1, `O_RDWR` 2,
`O_ACCMODE` 3, `O_CREAT` 0o100, `O_EXCL` 0o200, `O_TRUNC` 0o1000,
`O_APPEND` 0o2000 and `O_CLOEXEC` 0o2000000. `O_LARGEFILE` and `O_DIRECTORY`
depend on the architecture. They are set to the generic values 0o100000 and
0o200000. The proofs use only two facts about `O_LARGEFILE`: it is a single
nonzero bit, and it lies outside `O_ACCMODE` and the creation and append bits.

## Model

| member | source | states |
|---|---|---|
| `OpenFlags.AccessMode` | src/sys/linux/fs.rs:257-266 | Refused with `EINVAL` exactly when read, write and append are all off. `O_APPEND` is set exactly when append is requested. With read, the access bits are `O_RDWR` if write or append is also on, else `O_RDONLY`; without read they are `O_WRONLY`. No other bits are set. |
| `OpenFlags.CreationMode` | src/sys/linux/fs.rs:268-290 | Refused with `EINVAL` exactly when creation semantics lack write access, or when append is combined with truncate without create-new. Create-new dominates and gives `O_CREAT`\|`O_EXCL`. Otherwise `O_CREAT` is set iff create, `O_TRUNC` iff truncate, and never `O_EXCL`. |
| `OpenFlags.CreationModeValues` | src/sys/linux/fs.rs:283-289 | A valid creation mode is one of the five combinations 0, `O_CREAT`, `O_TRUNC`, `O_CREAT`\|`O_TRUNC`, `O_CREAT`\|`O_EXCL`. |
| `OpenFlags.Flags` | src/sys/linux/fs.rs:300-304 | The flag word is refused iff either mode is refused, always with `EINVAL`. Otherwise it has close-on-exec and large-file set and contains the access and creation bits. Its `O_ACCMODE` field equals the access mode's. It holds nothing else: `O_CREAT`, `O_EXCL`, `O_TRUNC` and `O_APPEND` are set only when one of the modes or the custom flags sets them. Every bit the engine never sets itself equals the custom flags' bit. |
| `OpenFlags.FlagsCarryCustom` | src/sys/linux/fs.rs:300-304 | Every custom flag outside the access-mode field reaches the flag word. |
| `OpenFlags.TruncateOnlyWhenAsked` | src/sys/linux/fs.rs:283-304 | Unless the custom flags ask for it, the word truncates the file exactly when truncation was requested without create-new. |
| `OpenFlags.CustomFlagsKeepAccessMode` | src/sys/linux/fs.rs:300-304 | Replacing the custom flags with any others never makes a valid request invalid and never changes the access bits of the flag word. |
| `OpenFlags.AccessOfFlags` | src/sys/linux/fs.rs:434-439 | The `F_GETFL` decoding of `Debug`. The fourth access pattern has no meaning. Otherwise the descriptor is readable unless write-only, and writable unless read-only. |
| `OpenFlags.AccessRoundTrip` | src/sys/linux/fs.rs:429-440 | Reading the access bits of the flag word back as `(readable, writable)` yields exactly (read, write or append). |
| `OpenFlags.Open` | src/sys/linux/fs.rs:294-321 | No syscall is issued iff the path holds a NUL or the options are refused. An invalid path gives `InvalidInput`; refused options give `EINVAL`. The issued request carries the computed flag word, the path with a NUL appended, and the mode cut to 16 bits. The call succeeds iff both `open(2)` and close-on-exec succeed, and it returns the descriptor `open(2)` gave. Otherwise it returns the failing syscall's error unchanged, checking `open(2)` first. |
| `OpenFlags.ReaddirFlags` | src/sys/linux/fs.rs:455-460 | `readdir` opens with exactly close-on-exec, large-file, read-only and `O_DIRECTORY`. |
| `OpenFlags.NewOptions` | src/sys/linux/fs.rs:232-245 | Definition only: every intent off, no custom flags, mode 0o666. `OpenFlags.NewOptionsRefused` states its consequence. |
| `OpenFlags.ReaddirOptions` | src/sys/linux/fs.rs:455-458 | Definition only: the options `readdir` builds. `OpenFlags.ReaddirFlags` states the flag word they give. |
| `OpenFlags.NewOptionsRefused` | src/sys/linux/fs.rs:232-245 | Freshly created options request no access and are refused with `EINVAL`. |
| `FileMode.TypeOf` | src/sys/linux/fs.rs:93-95 | Definition only: the type view keeps the whole mode word. `FileMode.TypeAndPermIndependent` states how it relates to `Perm`. |
| `FileMode.Readonly` | src/sys/linux/fs.rs:120 | Definition only: no write bit is set. `FileMode.SetReadonly` states how it relates to `set_readonly`. |
| `FileMode.Perm` | src/sys/linux/fs.rs:90-92 | The permissions keep the nine low bits of `st_mode` and nothing else. |
| `FileMode.SetReadonly` | src/sys/linux/fs.rs:119-127 | Afterwards `readonly()` holds iff the argument was true. Clearing read-only sets all three write bits. No bit outside `0o222` changes. |
| `FileMode.SetReadonlyIdempotent` | src/sys/linux/fs.rs:121-127 | Setting the same read-only value twice equals setting it once. |
| `FileMode.SetReadonlyUndo` | src/sys/linux/fs.rs:121-127 | On a mode writable by everyone, making it read-only and then writable restores the original. |
| `FileMode.SetReadonlyKeepsPermBits` | src/sys/linux/fs.rs:90-92 | Toggling read-only on permissions taken from a stat record never sets a bit outside `0o777`. |
| `FileMode.Is` | src/sys/linux/fs.rs:136 | Definition only: the format field equals the tag. `FileMode.TypesExclusive` and `FileMode.TypeAndPermIndependent` state its properties. |
| `FileMode.IsDir` | src/sys/linux/fs.rs:132 | Definition only: `Is` with `S_IFDIR`. `FileMode.TypesExclusive` and `FileMode.KnownTagsClassify` state its properties. |
| `FileMode.IsFile` | src/sys/linux/fs.rs:133 | Definition only: `Is` with `S_IFREG`. `FileMode.TypesExclusive` and `FileMode.KnownTagsClassify` state its properties. |
| `FileMode.IsSymlink` | src/sys/linux/fs.rs:134 | Definition only: `Is` with `S_IFLNK`. `FileMode.TypesExclusive` and `FileMode.KnownTagsClassify` state its properties. |
| `FileMode.TypesExclusive` | src/sys/linux/fs.rs:131-137 | No file type is more than one of directory, regular file and symlink. |
| `FileMode.TypeAndPermIndependent` | src/sys/linux/fs.rs:90-95 | Changing the permission bits never changes the type test, and changing the format bits never changes the permissions. |
| `FileMode.ModeOfDtype` | src/sys/linux/fs.rs:214-221 | The known tags are exactly `DT_FIFO`, `DT_CHR`, `DT_DIR`, `DT_BLK`, `DT_REG`, `DT_LNK` and `DT_SOCK`. Each stands for its value shifted left by twelve bits, a nonzero tag inside the `S_IFMT` field. |
| `FileMode.ModeOfDtypeMatchesShift` | src/sys/linux/fs.rs:213-222 | The table agrees with the kernel's encoding: a known tag is the format field shifted right by twelve, in both directions. `DT_UNKNOWN` is not in the table. |
| `FileMode.DtypeOfModeRoundTrip` | src/sys/linux/fs.rs:213-222 | When a mode's shifted format field is a known tag, the table maps it back to that format field. |
| `FileMode.FileTypeOfEntry` | src/sys/linux/fs.rs:213-224 | `DirEntry::file_type`, given the entry's tag. A known tag yields its `S_IF*` tag without consulting `lstat`. Any other tag yields `lstat`'s type, or its error. |
| `FileMode.KnownTagIgnoresLstat` | src/sys/linux/fs.rs:214-221 | For a known tag the answer never fails and does not depend on what `lstat` would say. |
| `FileMode.KnownTagsClassify` | src/sys/linux/fs.rs:131-134 | `DT_DIR`, `DT_REG` and `DT_LNK` entries satisfy `is_dir`, `is_file` and `is_symlink` respectively. |
| `FileMode.EntryTypeAgreesWithLstat` | src/sys/linux/fs.rs:213-224 | When the entry's tag is the one the kernel derives from the file's mode, the entry's type has the same format field as `lstat` reports. |
| `CStr.Strlen` | src/lib.rs:174-182 | Returns the index of the first NUL: the byte there is NUL and every earlier byte is not. The count equals the length of the NUL-prefix that entry names and arguments are cut to. |
| `CStr.PrefixUnique` | src/lib.rs:177-180 | The NUL-prefix is the only sequence that is a prefix, contains no NUL, and is followed by NUL or the end of the string. |
| `CStr.StrlenOfEmpty` | src/lib.rs:175-181 | A string whose first byte is NUL has an empty prefix. |
| `CStr.ToCString` | src/sys/linux/fs.rs:409-411 | Refused with `InvalidInput` iff the path holds a NUL. Otherwise the path gains exactly one terminating NUL. |
| `CStr.CStringRoundTrip` | src/sys/linux/fs.rs:409-411 | Reading the converted path back up to its first NUL gives the original path. |
| `ReadDir.EntryOf` | src/sys/linux/fs.rs:48-58 | An entry's name is the record's name up to its first NUL, and holds no NUL. The type tag and the directory path are carried over. |
| `ReadDir.OpenStream` | src/sys/linux/fs.rs:31-38 | A new stream is live and valid. Its buffer is empty with the cursor at its end, so the first call refills it. It keeps the directory path that every entry copies. |
| `ReadDir.Emit` | src/sys/linux/fs.rs:186-191 | Yields the entry of the record at the cursor and advances the cursor by that record's length, without asking the kernel. |
| `ReadDir.Next` | src/sys/linux/fs.rs:159-197 | An exhausted stream answers `None` and stays exhausted. An empty read or an error leaves the stream exhausted. The kernel is asked only when the cursor is at the end of the buffer. A panic happens only on a batch larger than the buffer. A yield outside a refill returns the record at the cursor and advances the cursor by its length. A refill acts on each kind of kernel answer (`RefillOutcome`). An error is returned with its code and ends the stream. An empty read, or no answer left, answers `None` and ends it. A read larger than the buffer panics. Otherwise the buffer becomes the new records, and the first record is yielded with the cursor advanced by its length. Validity of the cursor is preserved. |
| `ReadDir.NextProgress` | src/sys/linux/fs.rs:166-191 | Over well-formed kernel answers `next` never panics. Each yield either consumes a kernel answer or shortens the unread part of the buffer. |
| `ReadDir.DrainListsDirectory` | src/sys/linux/fs.rs:159-197 | Calling `next` until it answers `None` yields the records of every batch in order, up to the first empty read, or up to and including the first error. |
| `ReadDir.ExhaustedForever` | src/sys/linux/fs.rs:161-165 | Once the stream is exhausted, every later call answers `None`. |
| `ReadDir.ErrorReportedOnce` | src/sys/linux/fs.rs:172-177 | A getdents error is returned once and every later call answers `None`. |
| `ReadDir.StreamAnswersListing` | src/sys/linux/fs.rs:159-197 | From a freshly opened stream, the answers of successive calls are the directory listing, each wrapped in `Some`, followed by `None` forever. |
| `Readlink.Readlink` | src/sys/linux/fs.rs:497-521 | A path with a NUL is refused before any syscall. The first call uses the initial capacity and each retry a strictly larger, grown capacity. A kernel error is returned after one call. Otherwise the result is the whole link text, whatever the initial capacity. The loop stops on the first call that writes fewer bytes than the buffer holds, and every earlier call filled its buffer. |
| `Args.Init` | src/sys/linux/args.rs:62-68 | The store holds one entry per index `0..argc`, in order. Entry `i` is `argv[i]` up to its first NUL. |
| `Args.Cleanup` | src/sys/linux/args.rs:70-72 | The store is emptied. |
| `Args.ArgsOf` | src/sys/linux/args.rs:74-86 | The iterator holds a copy of the stored arguments, or nothing when nothing is stored. |
| `Args.Len` | src/sys/linux/args.rs:44-46 | Definition only: the number of arguments not yet taken. `Args.Next` and `Args.NextBack` state how it changes. |
| `Args.Next` | src/sys/linux/args.rs:38-41 | On an empty iterator it answers `None` and changes nothing. Otherwise it takes the first remaining argument, and `len` drops by one. |
| `Args.NextBack` | src/sys/linux/args.rs:48-50 | On an empty iterator it answers `None` and changes nothing. Otherwise it takes the last remaining argument, and `len` drops by one. |
| `Args.CollectFrontInOrder` | src/sys/linux/args.rs:38-41 | Draining with `next` yields the arguments in index order. |
| `Args.CollectBackReversed` | src/sys/linux/args.rs:48-50 | Draining with `next_back` yields the arguments in reverse index order. |
| `Args.ArgsBeforeInit` | src/sys/linux/args.rs:70-86 | Before any `init`, whatever mix of `cleanup` and `args` calls is made, every `args` call yields nothing and the store stays empty. |
| `Args.InitReplacesStore` | src/sys/linux/args.rs:62-68 | Whatever calls came before, `init` followed by `args` yields exactly the new arguments. |
| `Args.ArgsIsSnapshot` | src/sys/linux/args.rs:74-86 | `args` leaves the store unchanged, so two consecutive calls yield equal iterators. |
| `Args.ArgsAfterCleanup` | src/sys/linux/args.rs:70-80 | After `cleanup`, `args` yields nothing. |

## Left out

- The syscalls themselves (`open`, `fcntl`, `getdents64`, `readlink`, `lstat`, `fstat64` and the rest) are not modelled. Their answers are oracle parameters.
- `cvt` and `cvt_r` are not modelled, including the EINTR retry of `open`. `sys::cvt` is not part of this model. An interrupted call is modelled as its final answer.
- `FileDesc` is not modelled. `sys::fd` is not part of this model, so neither is closing the descriptor when setting close-on-exec fails. The outcome only records that error.
- Thin path wrappers with no logic of their own are left out: `unlink`, `rename`, `set_perm`, `rmdir`, `symlink`, `link`, `stat`, `lstat`, `DirBuilder`, `fsync`, `datasync`, `truncate`, `duplicate`, and the `read`/`write` delegations.
- `File::seek` is left out. It is outside the modelled core. Its mapping of `SeekFrom` to a whence code, the deliberate `i64` wrap of the offset, and the `u64` cast of the result are not modelled.
- `copy` is left out. It composes I/O layers that are not part of this model.
- `ReadDir`'s `Debug` implementation is left out. It only formats the root, or `<exhausted>` once the stream is spent, and the model has no formatter.
- `File`'s `Debug` implementation is modelled only through its access-mode decoding (`OpenFlags.AccessRoundTrip`). The `/proc/self/fd` path lookup and the `fcntl` call are left out.
- `FileAttr::size`, `modified`, `accessed` and `created` are left out. The time conversion to `SystemTime` is foreign.
- `DirEntry::path`, `metadata` and `ino` are left out. Path joining is an external collaborator. The `lstat` of the joined path is an oracle answer.
- The byte layout of `linux_dirent64` and the pointer casts are left out. Records are abstract: declared length, name bytes and type tag. A record's declared length and the byte offsets it implies are kept.
- `ReadDir.Next`: the oracle is a finite list of batches, and every call after the last one reads zero bytes.
- `ReadDir.DrainListsDirectory`: requires well-formed kernel answers, meaning positive record lengths and batches that fit the buffer. On other answers the stream may panic (the `assert!` on the read size), which `ReadDir.Next` models. A record with a zero `d_reclen` is not covered by `DrainListsDirectory`. On it `ReadDir.Next` yields the same entry forever, as the Rust code does.
- `Readlink.Readlink`: the kernel's view of the link is assumed unchanged between calls.
- `Readlink.Readlink`: `Vec::reserve(1)` growth is a parameter. The only assumption is that it returns a strictly larger capacity. The starting capacity is a parameter; `readlink` starts with `Readlink.INITIAL_CAPACITY` (256 bytes).
- `Readlink.Readlink`: the cast of the capacity to `i32` is not modelled. Capacities are unbounded naturals.
- `OpenFlags.Open`: `O_LARGEFILE` and `O_DIRECTORY` take their generic values. Their true values depend on the architecture, and the `linux` constants module is not part of this model.
- `process::exit` is left out. It is a diverging syscall with global cleanup.
- `src/sys/linux/ext/mod.rs` is left out. It holds only module declarations.
- The rest of `src/lib.rs` is left out: re-exports and stubs.
- The `FromInner` constructors are left out. They are `unimplemented!()` or commented out.
- `remove_dir_all` and `canonicalize` are left out. They are `unimplemented!()`.
- `Args.Init`: requires at least `argc` NUL-terminated strings in `argv`. This is the safety contract of `init` for the raw pointers. A negative `argc` gives no arguments, as `0..argc` is empty.
- The argument store is modelled as a value threaded through the calls. The Rust code's unsynchronised global is sound only when `init` and `cleanup` run before other threads start, and the model assumes that.
