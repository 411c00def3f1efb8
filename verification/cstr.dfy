/**
 * NUL-terminated byte strings: the `strlen` of the crate's private `libc`
 * module, the "bytes before the first NUL" rule that `CStr::from_ptr(..).to_bytes()`
 * applies to directory-entry names and to program arguments, and the
 * conversion of a path into a `CString` before it is handed to a syscall.
 */
module CStr {
  import opened Io

  /** The bytes of `s` before its first NUL byte; all of `s` when it has none. */
  function Prefix(s: seq<byte>): (r: seq<byte>)
    ensures |r| <= |s| && r == s[..|r|]
    ensures 0 !in r
    ensures |r| < |s| ==> s[|r|] == 0
  {
    if |s| == 0 || s[0] == 0 then [] else [s[0]] + Prefix(s[1..])
  }

  /** The three properties above pin the prefix down: no other sequence has them. */
  lemma {:induction false} PrefixUnique(s: seq<byte>, r: seq<byte>)
    requires |r| <= |s| && r == s[..|r|]
    requires 0 !in r
    requires |r| < |s| ==> s[|r|] == 0
    ensures r == Prefix(s)
  {
    if |s| == 0 || s[0] == 0 {
    } else {
      assert |r| > 0 && r[0] == s[0];
      var r' := r[1..];
      assert r' == s[1..][..|r'|];
      assert forall b :: b in r' ==> b in r;
      PrefixUnique(s[1..], r');
      assert r == [s[0]] + r';
    }
  }

  /**
   * `libc::strlen`: walks the string until it meets a NUL and returns the
   * number of bytes it stepped over.  The caller must hand it a string that
   * holds a NUL; the walk never reads past that byte.
   */
  method Strlen(cs: seq<byte>) returns (len: nat)
    requires 0 in cs
    ensures len < |cs| && cs[len] == 0
    ensures forall i :: 0 <= i < len ==> cs[i] != 0
    ensures len == |Prefix(cs)|
  {
    len := 0;
    while cs[len] != 0
      invariant len < |cs|
      invariant 0 in cs[len..]
      invariant forall i :: 0 <= i < len ==> cs[i] != 0
      decreases |cs| - len
    {
      assert cs[len..] == [cs[len]] + cs[len + 1..];
      len := len + 1;
    }
    PrefixUnique(cs, cs[..len]);
  }

  /** A string that starts with NUL has length zero. */
  lemma StrlenOfEmpty(cs: seq<byte>)
    requires |cs| > 0 && cs[0] == 0
    ensures Prefix(cs) == []
  {
  }

  /**
   * `CString::new` as used by the path helper `cstr`: a path with an
   * interior NUL cannot be passed to the kernel and is refused with an
   * invalid-input error; otherwise the bytes gain a terminating NUL.
   */
  function ToCString(path: seq<byte>): (r: Result<seq<byte>>)
    ensures r.Err? <==> 0 in path
    ensures r.Err? ==> r.error == Simple(InvalidInput)
    ensures r.Ok? ==> |r.value| == |path| + 1 && r.value[|path|] == 0
  {
    if 0 in path then Err(Simple(InvalidInput)) else Ok(path + [0])
  }

  /** Reading back a converted path up to its NUL gives the original path. */
  lemma CStringRoundTrip(path: seq<byte>)
    requires 0 !in path
    ensures ToCString(path).Ok?
    ensures Prefix(ToCString(path).value) == path
  {
    var c := path + [0];
    assert c[..|path|] == path;
    PrefixUnique(c, path);
  }
}
