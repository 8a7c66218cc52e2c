/** The C library string behaviour the proxy relies on: NUL-terminated
    character buffers, `strlen`, the cut `snprintf` applies to its output,
    and `printf`-family formatting of a format string given no arguments.
    Each `char` of a `string` stands for one C byte; nothing is decoded, so
    every length is a byte count. */
module CStrings {

  datatype Option<+T> = None | Some(value: T)

  const NUL: char := '\0'

  /** A C string: none of its characters is the terminating NUL. */
  predicate IsCString(s: string) {
    NUL !in s
  }

  /** The characters of `s` before the first `c`, or all of `s` when `c`
      does not occur. With `c == NUL` this is the C string a buffer holds
      (`strlen` is its length). */
  function PrefixBefore(s: string, c: char): (r: string)
    ensures r <= s
    ensures c !in r
    ensures |r| < |s| ==> s[|r|] == c
  {
    if s == [] || s[0] == c then [] else [s[0]] + PrefixBefore(s[1..], c)
  }

  /** `strlen` of a C string is its length. */
  lemma PrefixBeforeAbsent(s: string, c: char)
    requires c !in s
    ensures PrefixBefore(s, c) == s
  {
  }

  /** A prefix that ends right before a `c` is exactly what PrefixBefore finds. */
  lemma {:induction false} PrefixBeforeAppend(a: string, c: char, b: string)
    requires c !in a
    ensures PrefixBefore(a + [c] + b, c) == a
  {
    if a != [] {
      assert (a + [c] + b)[1..] == a[1..] + [c] + b;
      PrefixBeforeAppend(a[1..], c, b);
    }
  }

  /** What `snprintf(buf, n, ...)` leaves in `buf` when the complete output
      would be `s`: at most `n - 1` characters of it, then the NUL. */
  function SnprintfCut(s: string, n: int): (r: string)
    requires n >= 1
    ensures r <= s && |r| < n
    ensures |s| < n ==> r == s
    ensures |s| >= n ==> |r| == n - 1
  {
    if |s| < n then s else s[..n - 1]
  }

  /** The output of a `printf`-family call whose format is `fmt` (read up to
      its NUL) and which passes no further argument. `%%` writes one `%`;
      any other conversion would read a missing argument, and a format with
      no NUL runs past its buffer: C leaves both undefined, and so the
      result is None there. */
  function FormatNoArgs(fmt: string): (r: Option<string>)
    ensures r.Some? ==> IsCString(r.value) && |r.value| < |fmt|
    decreases |fmt|
  {
    if fmt == [] then None
    else if fmt[0] == NUL then Some([])
    else if fmt[0] != '%' then
      match FormatNoArgs(fmt[1..])
      case None => None
      case Some(t) => Some([fmt[0]] + t)
    else if |fmt| >= 2 && fmt[1] == '%' then
      match FormatNoArgs(fmt[2..])
      case None => None
      case Some(t) => Some(['%'] + t)
    else None
  }

  /** A format without `%` before its NUL is copied verbatim up to the NUL. */
  lemma {:induction false} FormatPlain(fmt: string)
    requires NUL in fmt
    requires '%' !in PrefixBefore(fmt, NUL)
    ensures FormatNoArgs(fmt) == Some(PrefixBefore(fmt, NUL))
  {
    if fmt[0] != NUL {
      assert fmt[0] == PrefixBefore(fmt, NUL)[0];
      assert NUL in fmt[1..] by {
        var k :| 0 <= k < |fmt| && fmt[k] == NUL;
        assert fmt[1..][k - 1] == NUL;
      }
      FormatPlain(fmt[1..]);
    }
  }

  /** A `%` not followed by a second `%` before the NUL makes the call undefined. */
  lemma {:induction false} FormatStrayPercent(a: string, c: char, b: string)
    requires IsCString(a) && '%' !in a && c != '%'
    ensures FormatNoArgs(a + ['%', c] + b) == None
  {
    if a != [] {
      assert (a + ['%', c] + b)[1..] == a[1..] + ['%', c] + b;
      FormatStrayPercent(a[1..], c, b);
    }
  }
}
