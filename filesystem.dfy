/**
 * The part of the operating system's file API the engine uses, as
 * operations on a map from path to file. Errors of os.Remove are ignored
 * by every caller, so Remove cannot fail; os.Create is assumed to succeed
 * (the target directory exists and is writable).
 */
module FileSystem {
  import opened Wrappers
  import opened Digest

  /** A regular file: its bytes and its permission bits. */
  datatype File = File(data: seq<byte>, perm: bv32)

  /** The requested permission mode; `NoFileMode` means "leave permissions alone". */
  datatype Mode = NoFileMode | FileMode(bits: bv32)

  type Files = map<string, File>

  /** The permission bits os.Create asks for (0666; the umask is not modelled). */
  const CREATE_MODE: bv32 := 0x1B6

  /** os.FileMode.Perm: the low nine permission bits. */
  function Perm(bits: bv32): bv32
  {
    bits & 0x1FF
  }

  function Lookup(fs: Files, p: string): Option<File>
  {
    if p in fs then Some(fs[p]) else None
  }

  /** os.Remove, whose error every caller ignores. */
  function Remove(fs: Files, p: string): Files
  {
    fs - {p}
  }

  /** os.Create: an existing file is truncated and keeps its permissions. */
  function Create(fs: Files, p: string): Files
  {
    fs[p := File([], if p in fs then fs[p].perm else CREATE_MODE)]
  }

  /** A response body streamed into `p`, which is created or truncated first. */
  function Write(fs: Files, p: string, data: seq<byte>): Files
  {
    fs[p := File(data, if p in fs then fs[p].perm else CREATE_MODE)]
  }

  /** os.Rename: fails when the source does not exist; replaces the target. */
  function Rename(fs: Files, from: string, to: string): Option<Files>
  {
    if from in fs then Some((fs - {from})[to := fs[from]]) else None
  }

  /** os.Chmod with mode.Perm(): fails when the file does not exist. */
  function Chmod(fs: Files, p: string, bits: bv32): Option<Files>
  {
    if p in fs then Some(fs[p := fs[p].(perm := Perm(bits))]) else None
  }

  /** The `if mode != NoFileMode { os.Chmod(...) }` step. */
  function ApplyMode(fs: Files, p: string, mode: Mode): Option<Files>
  {
    match mode
    case NoFileMode => Some(fs)
    case FileMode(bits) => Chmod(fs, p, bits)
  }

  /** The permission bits a file placed by a download ends with. */
  function PermAfter(mode: Mode): bv32
  {
    match mode
    case NoFileMode => CREATE_MODE
    case FileMode(bits) => Perm(bits)
  }

  /**
   * Perm keeps exactly the nine permission bits: the mode splits into the
   * permission part and the rest, and a second Perm changes nothing.
   */
  lemma PermLowBits(bits: bv32)
    ensures Perm(bits) <= 0x1FF
    ensures Perm(bits) | (bits & !0x1FF) == bits
    ensures Perm(bits) & (bits & !0x1FF) == 0
    ensures Perm(Perm(bits)) == Perm(bits)
  {
  }

  /** os.Remove deletes `p`, if present, and leaves every other path alone. */
  lemma RemoveDeletesOnly(fs: Files, p: string)
    ensures p !in Remove(fs, p)
    ensures forall q :: q != p ==> Lookup(Remove(fs, p), q) == Lookup(fs, q)
    ensures p !in fs ==> Remove(fs, p) == fs
  {
  }

  /**
   * os.Create leaves an empty file at `p`, keeping an existing file's
   * permissions and using CREATE_MODE for a new one; no other path changes.
   */
  lemma CreateTruncates(fs: Files, p: string)
    ensures Lookup(Create(fs, p), p) == Some(File([], if p in fs then fs[p].perm else CREATE_MODE))
    ensures forall q :: q != p ==> Lookup(Create(fs, p), q) == Lookup(fs, q)
    ensures Create(fs, p).Keys == fs.Keys + {p}
  {
  }

  /**
   * Streaming a body into `p` leaves exactly those bytes there, with the
   * permissions of the file it replaces; no other path changes.
   */
  lemma WriteReplaces(fs: Files, p: string, data: seq<byte>)
    ensures p in Write(fs, p, data) && Write(fs, p, data)[p].data == data
    ensures p in fs ==> Write(fs, p, data)[p].perm == fs[p].perm
    ensures forall q :: q != p ==> Lookup(Write(fs, p, data), q) == Lookup(fs, q)
    ensures Write(Create(fs, p), p, data) == Write(fs, p, data)
  {
  }

  /**
   * os.Rename moves the file: it succeeds exactly when the source exists,
   * the target then holds the source's file, the source name is gone
   * unless it is the target, and every other path is unchanged.
   */
  lemma RenameMoves(fs: Files, from: string, to: string)
    ensures Rename(fs, from, to).Some? <==> from in fs
    ensures from in fs ==>
      && to in Rename(fs, from, to).value && Rename(fs, from, to).value[to] == fs[from]
      && (from != to ==> from !in Rename(fs, from, to).value)
      && forall q :: q != from && q != to ==> Lookup(Rename(fs, from, to).value, q) == Lookup(fs, q)
  {
  }

  /**
   * os.Chmod succeeds exactly when the file exists and changes only that
   * file's permission bits, to the low nine bits of the mode.
   */
  lemma ChmodSetsPermOnly(fs: Files, p: string, bits: bv32)
    ensures Chmod(fs, p, bits).Some? <==> p in fs
    ensures p in fs ==>
      && Chmod(fs, p, bits).value.Keys == fs.Keys
      && Chmod(fs, p, bits).value[p] == File(fs[p].data, Perm(bits))
      && forall q :: q != p ==> Lookup(Chmod(fs, p, bits).value, q) == Lookup(fs, q)
  {
  }

  /**
   * The mode step leaves the file system alone for `NoFileMode`; for any
   * other mode it fails exactly when the file is missing and otherwise
   * sets that file's permissions, keeping every file's bytes.
   */
  lemma ApplyModeEffect(fs: Files, p: string, mode: Mode)
    ensures mode.NoFileMode? ==> ApplyMode(fs, p, mode) == Some(fs)
    ensures mode.FileMode? ==> (ApplyMode(fs, p, mode).Some? <==> p in fs)
    ensures ApplyMode(fs, p, mode).Some? ==>
      && ApplyMode(fs, p, mode).value.Keys == fs.Keys
      && (forall q :: q in fs ==> ApplyMode(fs, p, mode).value[q].data == fs[q].data)
      && (mode.FileMode? ==> ApplyMode(fs, p, mode).value[p].perm == Perm(mode.bits))
  {
  }
}
