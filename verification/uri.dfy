/** The two URL manipulations the backend clients perform: removing the
    trailing slashes of a base URL (`replace(/\/+$/, "")`) and
    `encodeURIComponent` for path segments and query values. */
module Uri {

  /** `s.replace(/\/+$/, "")`: the trailing run of `/` is removed. */
  function StripTrailingSlashes(s: string): (r: string)
    ensures |r| <= |s| && r == s[..|r|]
    ensures r == [] || r[|r| - 1] != '/'
    ensures forall i :: |r| <= i < |s| ==> s[i] == '/'
  {
    if |s| > 0 && s[|s| - 1] == '/' then StripTrailingSlashes(s[..|s| - 1]) else s
  }

  /** The three guarantees determine the result: any prefix of `s` that does not end
      in `/` and whose removed suffix is all slashes is the stripped URL. */
  lemma {:induction false} StripTrailingSlashesUnique(s: string, r: string)
    requires |r| <= |s| && r == s[..|r|]
    requires r == [] || r[|r| - 1] != '/'
    requires forall i :: |r| <= i < |s| ==> s[i] == '/'
    ensures r == StripTrailingSlashes(s)
  {
    if |s| > 0 && s[|s| - 1] == '/' && |r| < |s| {
      StripTrailingSlashesUnique(s[..|s| - 1], r);
    }
  }

  /** Stripping twice is stripping once. */
  lemma StripTrailingSlashesIdempotent(s: string)
    ensures StripTrailingSlashes(StripTrailingSlashes(s)) == StripTrailingSlashes(s)
  {
  }

  /** A URL that does not end in `/` is left alone. */
  lemma StripTrailingSlashesNoSlash(s: string)
    requires s == [] || s[|s| - 1] != '/'
    ensures StripTrailingSlashes(s) == s
  {
  }

  /** The characters `encodeURIComponent` leaves as they are. */
  predicate Unreserved(c: char) {
    || ('A' <= c <= 'Z') || ('a' <= c <= 'z') || ('0' <= c <= '9')
    || c == '-' || c == '_' || c == '.' || c == '!' || c == '~' || c == '*' || c == '\'' || c == '(' || c == ')'
  }

  /** A character that may appear in an encoded component. */
  predicate EncodedChar(c: char) {
    Unreserved(c) || c == '%'
  }

  predicate IsByte(b: int) {
    0 <= b < 256
  }

  /** The UTF-8 encoding of one Unicode scalar value. */
  function Utf8(c: char): (r: seq<int>)
    ensures 1 <= |r| <= 4
    ensures forall i :: 0 <= i < |r| ==> IsByte(r[i])
  {
    var n := c as int;
    if n < 0x80 then [n]
    else if n < 0x800 then [0xC0 + n / 64, 0x80 + n % 64]
    else if n < 0x10000 then [0xE0 + n / 4096, 0x80 + (n / 64) % 64, 0x80 + n % 64]
    else [0xF0 + n / 262144, 0x80 + (n / 4096) % 64, 0x80 + (n / 64) % 64, 0x80 + n % 64]
  }

  function UpperHex(d: int): (r: char)
    requires 0 <= d < 16
    ensures Unreserved(r)
  {
    "0123456789ABCDEF"[d]
  }

  /** `%XX` for every byte. */
  function PercentBytes(bs: seq<int>): (r: string)
    requires forall i :: 0 <= i < |bs| ==> IsByte(bs[i])
    ensures |r| == 3 * |bs|
    ensures forall i :: 0 <= i < |r| ==> EncodedChar(r[i])
  {
    if |bs| == 0 then ""
    else
      assert IsByte(bs[0]);
      ['%', UpperHex(bs[0] / 16), UpperHex(bs[0] % 16)] + PercentBytes(bs[1..])
  }

  function EncodeChar(c: char): (r: string)
    ensures Unreserved(c) ==> r == [c]
    ensures !Unreserved(c) ==> |r| >= 3 && r[0] == '%'
    ensures forall i :: 0 <= i < |r| ==> EncodedChar(r[i])
  {
    if Unreserved(c) then [c] else PercentBytes(Utf8(c))
  }

  /** `encodeURIComponent(s)`. */
  function EncodeComponent(s: string): (r: string)
    ensures |r| >= |s|
    ensures forall i :: 0 <= i < |r| ==> EncodedChar(r[i])
    ensures (forall i :: 0 <= i < |s| ==> Unreserved(s[i])) ==> r == s
  {
    if |s| == 0 then "" else EncodeChar(s[0]) + EncodeComponent(s[1..])
  }

  /** An encoded component cannot end a path segment, start a query, or split a query pair. */
  lemma EncodedHasNoDelimiter(s: string)
    ensures '/' !in EncodeComponent(s)
    ensures '?' !in EncodeComponent(s)
    ensures '#' !in EncodeComponent(s)
    ensures '&' !in EncodeComponent(s)
    ensures '=' !in EncodeComponent(s)
  {
    EncodedAvoids(s, '/');
    EncodedAvoids(s, '?');
    EncodedAvoids(s, '#');
    EncodedAvoids(s, '&');
    EncodedAvoids(s, '=');
  }

  /** No character outside the encoded alphabet survives encoding. */
  lemma EncodedAvoids(s: string, c: char)
    requires !EncodedChar(c)
    ensures c !in EncodeComponent(s)
  {
  }
}
