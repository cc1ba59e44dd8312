/** String helpers with the JavaScript meaning the client relies on:
    `trim`, `split` on one character, `join`, the split-trim-drop-blank
    idiom, ASCII lower-casing, `startsWith`, and integer-to-decimal. */
module Text {

  /** The WhiteSpace and LineTerminator code points of ECMAScript:
      exactly what `String.prototype.trim` removes from both ends. */
  predicate IsSpace(c: char) {
    var n := c as int;
    || n == 0x09 || n == 0x0A || n == 0x0B || n == 0x0C || n == 0x0D || n == 0x20
    || n == 0xA0 || n == 0x1680 || (0x2000 <= n <= 0x200A) || n == 0x2028 || n == 0x2029
    || n == 0x202F || n == 0x205F || n == 0x3000 || n == 0xFEFF
  }

  predicate AllSpace(s: string) {
    forall i :: 0 <= i < |s| ==> IsSpace(s[i])
  }

  /** No white space at either end. */
  predicate IsTrimmed(s: string) {
    s == [] || (!IsSpace(s[0]) && !IsSpace(s[|s| - 1]))
  }

  /** `s` with its leading white space removed. */
  function TrimStart(s: string): (r: string)
    ensures |r| <= |s| && r == s[|s| - |r|..]
    ensures r == [] || !IsSpace(r[0])
  {
    if |s| > 0 && IsSpace(s[0]) then TrimStart(s[1..]) else s
  }

  /** What `TrimStart` removes is all white space. */
  lemma {:induction false} TrimStartDropsSpace(s: string)
    ensures AllSpace(s[..|s| - |TrimStart(s)|])
  {
    if |s| > 0 && IsSpace(s[0]) {
      TrimStartDropsSpace(s[1..]);
      var k := |s| - |TrimStart(s)|;
      forall i | 0 <= i < k
        ensures IsSpace(s[..k][i])
      {
        if i > 0 {
          assert s[..k][i] == s[1..][..k - 1][i - 1];
        }
      }
    }
  }

  /** `s` with its trailing white space removed. */
  function TrimEnd(s: string): (r: string)
    ensures |r| <= |s| && r == s[..|r|]
    ensures r == [] || !IsSpace(r[|r| - 1])
  {
    if |s| > 0 && IsSpace(s[|s| - 1]) then
      var r := TrimEnd(s[..|s| - 1]);
      assert s[..|s| - 1][..|r|] == s[..|r|];
      r
    else s
  }

  /** What `TrimEnd` removes is all white space. */
  lemma {:induction false} TrimEndDropsSpace(s: string)
    ensures AllSpace(s[|TrimEnd(s)|..])
  {
    if |s| > 0 && IsSpace(s[|s| - 1]) {
      var t := s[..|s| - 1];
      TrimEndDropsSpace(t);
      var k := |TrimEnd(s)|;
      forall i | 0 <= i < |s| - k
        ensures IsSpace(s[k..][i])
      {
        if i < |s| - 1 - k {
          assert s[k..][i] == t[k..][i];
        }
      }
    }
  }

  /** `String.prototype.trim`: the longest infix of `s` with no white space at either end. */
  function Trim(s: string): (r: string)
    ensures IsTrimmed(r)
    ensures |r| <= |s|
  {
    TrimStart(TrimEnd(s))
  }

  /** Trimming leaves nothing exactly when the text is all white space. */
  lemma TrimBlank(s: string)
    ensures Trim(s) == [] <==> AllSpace(s)
  {
    var t := TrimEnd(s);
    TrimEndDropsSpace(s);
    TrimStartDropsSpace(t);
    assert s == t + s[|t|..];
    if Trim(s) == [] {
      assert t[..|t|] == t;
      forall i | 0 <= i < |s|
        ensures IsSpace(s[i])
      {
        assert s[i] == s[|t|..][i - |t|];
      }
    }
  }

  /** Trimming never introduces a character. */
  lemma TrimKeeps(s: string, c: char)
    requires c !in s
    ensures c !in Trim(s)
  {
    var t := TrimEnd(s);
    assert t == s[..|t|];
    assert Trim(s) == t[|t| - |Trim(s)|..];
  }

  /** Trimming text that is already trimmed changes nothing. */
  lemma TrimTrimmed(s: string)
    requires IsTrimmed(s)
    ensures Trim(s) == s
  {
  }

  /** `trim` is idempotent. */
  lemma TrimIdempotent(s: string)
    ensures Trim(Trim(s)) == Trim(s)
  {
    TrimTrimmed(Trim(s));
  }

  /** A trailing carriage return is white space, so it never survives `trim`. */
  lemma TrimDropsTrailingCr(p: string)
    ensures Trim(p + ['\r']) == Trim(p)
  {
    var q := p + ['\r'];
    assert q[..|q| - 1] == p;
    assert TrimEnd(q) == TrimEnd(p);
  }

  /** No entry holds the separator. */
  predicate SepFree(xs: seq<string>, sep: char) {
    forall i :: 0 <= i < |xs| ==> sep !in xs[i]
  }

  /** `s.split(sep)` for a one-character separator: the maximal pieces between separators. */
  function Split(s: string, sep: char): (r: seq<string>)
    ensures |r| >= 1 && SepFree(r, sep)
  {
    if |s| == 0 then [""]
    else
      var rest := Split(s[1..], sep);
      if s[0] == sep then [""] + rest
      else [[s[0]] + rest[0]] + rest[1..]
  }

  /** `xs.join(sep)`; the empty list joins to the empty string. */
  function Join(xs: seq<string>, sep: char): string {
    if |xs| == 0 then ""
    else if |xs| == 1 then xs[0]
    else xs[0] + [sep] + Join(xs[1..], sep)
  }

  /** Joining adds only separators: a character in none of the entries, other than the separator, is not in the join. */
  lemma {:induction false} JoinAvoids(xs: seq<string>, sep: char, c: char)
    requires c != sep
    requires forall i :: 0 <= i < |xs| ==> c !in xs[i]
    ensures c !in Join(xs, sep)
  {
    if |xs| > 1 {
      JoinAvoids(xs[1..], sep, c);
    }
  }

  lemma SepFreeTail(xs: seq<string>, sep: char)
    requires |xs| > 0 && SepFree(xs, sep)
    ensures SepFree(xs[1..], sep)
  {
    forall i | 0 <= i < |xs| - 1
      ensures sep !in xs[1..][i]
    {
      assert xs[1..][i] == xs[i + 1];
    }
  }

  lemma SepFreeCons(x: string, xs: seq<string>, sep: char)
    requires sep !in x && SepFree(xs, sep)
    ensures SepFree([x] + xs, sep)
  {
    forall i | 0 < i < |xs| + 1
      ensures sep !in ([x] + xs)[i]
    {
      assert ([x] + xs)[i] == xs[i - 1];
    }
  }

  /** Text without the separator is a single piece. */
  lemma {:induction false} SplitNoSep(a: string, sep: char)
    requires sep !in a
    ensures Split(a, sep) == [a]
  {
    if |a| > 0 {
      SplitNoSep(a[1..], sep);
      assert [a[0]] + a[1..] == a;
    }
  }

  /** Splitting distributes over a separator: pieces keep their order. */
  lemma {:induction false} SplitAppend(a: string, b: string, sep: char)
    ensures Split(a + [sep] + b, sep) == Split(a, sep) + Split(b, sep)
  {
    var s := a + [sep] + b;
    if |a| == 0 {
      assert s[0] == sep && s[1..] == b;
      assert Split(a, sep) == [""];
    } else {
      assert s[0] == a[0] && s[1..] == a[1..] + [sep] + b;
      SplitAppend(a[1..], b, sep);
      var p := Split(a[1..], sep);
      var q := Split(b, sep);
      if a[0] != sep {
        assert (p + q)[0] == p[0] && (p + q)[1..] == p[1..] + q;
        assert Split(s, sep) == [[a[0]] + p[0]] + (p[1..] + q);
        assert Split(a, sep) == [[a[0]] + p[0]] + p[1..];
      }
    }
  }

  /** A single non-separator character is a single piece. */
  lemma SplitSingle(c: char, sep: char)
    requires c != sep
    ensures Split([c], sep) == [[c]]
  {
    assert [c][1..] == [];
    assert [c] + "" == [c];
  }

  /** Appending a non-separator character extends the last piece. */
  lemma {:induction false} SplitSnoc(a: string, c: char, sep: char)
    requires c != sep
    ensures var p := Split(a, sep);
            Split(a + [c], sep) == p[..|p| - 1] + [p[|p| - 1] + [c]]
  {
    if |a| == 0 {
      assert a + [c] == [c];
      SplitSingle(c, sep);
    } else {
      assert (a + [c])[1..] == a[1..] + [c];
      SplitSnoc(a[1..], c, sep);
      var q := Split(a[1..], sep);
      if a[0] != sep && |q| == 1 {
        assert [a[0]] + (q[0] + [c]) == ([a[0]] + q[0]) + [c];
      }
    }
  }

  /** Joining and splitting again gives back the text. */
  lemma {:induction false} JoinSplit(s: string, sep: char)
    ensures Join(Split(s, sep), sep) == s
  {
    if |s| > 0 {
      JoinSplit(s[1..], sep);
      var rest := Split(s[1..], sep);
      if s[0] == sep {
        assert ([""] + rest)[1..] == rest;
      } else {
        var r := Split(s, sep);
        assert r[1..] == rest[1..];
        if |rest| > 1 {
          assert Join(rest, sep) == rest[0] + [sep] + Join(rest[1..], sep);
          assert Join(r, sep) == ([s[0]] + rest[0]) + [sep] + Join(rest[1..], sep);
        }
        assert s == [s[0]] + s[1..];
      }
    }
  }

  /** Splitting a join of separator-free pieces gives back the pieces. */
  lemma {:induction false} SplitJoin(xs: seq<string>, sep: char)
    requires |xs| >= 1 && SepFree(xs, sep)
    ensures Split(Join(xs, sep), sep) == xs
  {
    SplitNoSep(xs[0], sep);
    if |xs| > 1 {
      SepFreeTail(xs, sep);
      SplitJoin(xs[1..], sep);
      SplitAppend(xs[0], Join(xs[1..], sep), sep);
      assert xs == [xs[0]] + xs[1..];
    }
  }

  /** Separator-free pieces joined under a prefix split into the prefix's pieces followed by those pieces. */
  lemma SplitUnder(prefix: string, xs: seq<string>, sep: char)
    requires |xs| >= 1 && SepFree(xs, sep)
    ensures Split(prefix + ([sep] + Join(xs, sep)), sep) == Split(prefix, sep) + xs
  {
    assert prefix + ([sep] + Join(xs, sep)) == prefix + [sep] + Join(xs, sep);
    SplitJoin(xs, sep);
    SplitAppend(prefix, Join(xs, sep), sep);
  }

  /** The trimmed, non-blank entries of `xs` in their original order
      (`xs.map((x) => x.trim()).filter(Boolean)`). */
  function Clean(xs: seq<string>): (r: seq<string>)
    ensures |r| <= |xs|
    ensures forall i :: 0 <= i < |r| ==> r[i] != "" && IsTrimmed(r[i])
  {
    if |xs| == 0 then []
    else
      var t := Trim(xs[0]);
      var rest := Clean(xs[1..]);
      if t == "" then rest else [t] + rest
  }

  /** Trimming never introduces a character, so separator-free entries stay separator-free. */
  lemma {:induction false} CleanSepFree(xs: seq<string>, sep: char)
    requires SepFree(xs, sep)
    ensures SepFree(Clean(xs), sep)
  {
    if |xs| > 0 {
      SepFreeTail(xs, sep);
      CleanSepFree(xs[1..], sep);
      TrimKeeps(xs[0], sep);
      if Trim(xs[0]) != "" {
        SepFreeCons(Trim(xs[0]), Clean(xs[1..]), sep);
      }
    }
  }

  /** An input with no blank entry loses nothing. */
  lemma {:induction false} CleanKeepsNonBlank(xs: seq<string>)
    requires forall i :: 0 <= i < |xs| ==> !AllSpace(xs[i])
    ensures |Clean(xs)| == |xs|
  {
    if |xs| > 0 {
      TrimBlank(xs[0]);
      CleanKeepsNonBlank(xs[1..]);
    }
  }

  /** Cleaning keeps order: it distributes over concatenation. */
  lemma {:induction false} CleanAppend(a: seq<string>, b: seq<string>)
    ensures Clean(a + b) == Clean(a) + Clean(b)
  {
    if |a| > 0 {
      assert (a + b)[1..] == a[1..] + b;
      CleanAppend(a[1..], b);
    } else {
      assert a + b == b;
    }
  }

  /** Entries that are already trimmed and non-blank pass through unchanged. */
  lemma {:induction false} CleanClean(xs: seq<string>)
    requires forall i :: 0 <= i < |xs| ==> xs[i] != "" && IsTrimmed(xs[i])
    ensures Clean(xs) == xs
  {
    if |xs| > 0 {
      TrimTrimmed(xs[0]);
      CleanClean(xs[1..]);
      assert Clean(xs) == [xs[0]] + Clean(xs[1..]);
      assert xs == [xs[0]] + xs[1..];
    }
  }

  /** Entries as the split-trim-drop-blank idiom leaves them: non-blank, trimmed, separator-free. */
  predicate CleanEntries(xs: seq<string>, sep: char) {
    forall i :: 0 <= i < |xs| ==> xs[i] != "" && IsTrimmed(xs[i]) && sep !in xs[i]
  }

  /** `s.split(sep).map((x) => x.trim()).filter(Boolean)`. */
  function Pieces(s: string, sep: char): (r: seq<string>)
    ensures CleanEntries(r, sep)
    ensures s == [] ==> r == []
  {
    var parts := Split(s, sep);
    CleanSepFree(parts, sep);
    assert s == [] ==> Clean(parts) == [] by {
      if s == [] {
        assert parts == [""];
        assert Clean([""]) == [] + Clean([]);
      }
    }
    Clean(parts)
  }

  /** Entries keep input order: pieces of `a sep b` are those of `a` then those of `b`. */
  lemma PiecesAppend(a: string, b: string, sep: char)
    ensures Pieces(a + [sep] + b, sep) == Pieces(a, sep) + Pieces(b, sep)
  {
    SplitAppend(a, b, sep);
    CleanAppend(Split(a, sep), Split(b, sep));
  }

  /** Joining clean entries with the separator and splitting again gives the entries back. */
  lemma PiecesJoin(xs: seq<string>, sep: char)
    requires CleanEntries(xs, sep)
    ensures Pieces(Join(xs, sep), sep) == xs
  {
    if |xs| > 0 {
      SplitJoin(xs, sep);
      CleanClean(xs);
    }
  }

  /** The round trip the client relies on: re-joining the entries and re-splitting is stable. */
  lemma PiecesRoundTrip(s: string, sep: char)
    ensures Pieces(Join(Pieces(s, sep), sep), sep) == Pieces(s, sep)
  {
    PiecesJoin(Pieces(s, sep), sep);
  }

  /** A single entry cleans to its trimmed text, or to nothing when that is blank. */
  lemma CleanSingle(x: string)
    ensures Clean([x]) == if Trim(x) == "" then [] else [Trim(x)]
  {
    assert [x][1..] == [];
  }

  /** Two lists of equal length whose entries trim alike, position by position. */
  predicate TrimAlike(xs: seq<string>, ys: seq<string>) {
    |xs| == |ys| && forall i :: 0 <= i < |xs| ==> Trim(xs[i]) == Trim(ys[i])
  }

  /** Lists whose entries trim alike clean alike. */
  lemma {:induction false} CleanTrimAlike(xs: seq<string>, ys: seq<string>)
    requires TrimAlike(xs, ys)
    ensures Clean(xs) == Clean(ys)
  {
    if |xs| > 0 {
      assert Trim(xs[0]) == Trim(ys[0]);
      assert TrimAlike(xs[1..], ys[1..]) by {
        forall i | 0 <= i < |xs| - 1
          ensures Trim(xs[1..][i]) == Trim(ys[1..][i])
        {
          assert xs[1..][i] == xs[i + 1] && ys[1..][i] == ys[i + 1];
        }
      }
      CleanTrimAlike(xs[1..], ys[1..]);
    }
  }

  /** A carriage return before the end is white space the pieces lose. */
  lemma PiecesDropsCr(a: string, sep: char)
    requires sep != '\r'
    ensures Pieces(a + ['\r'], sep) == Pieces(a, sep)
  {
    var p := Split(a, sep);
    var n := |p|;
    var init := p[..n - 1];
    var last := p[n - 1];
    SplitSnoc(a, '\r', sep);
    assert Split(a + ['\r'], sep) == init + [last + ['\r']];
    assert p == init + [last];
    assert Clean([last + ['\r']]) == Clean([last]) by {
      TrimDropsTrailingCr(last);
      CleanSingle(last + ['\r']);
      CleanSingle(last);
    }
    calc {
      Pieces(a + ['\r'], sep);
      Clean(init + [last + ['\r']]);
      { CleanAppend(init, [last + ['\r']]); }
      Clean(init) + Clean([last + ['\r']]);
      Clean(init) + Clean([last]);
      { CleanAppend(init, [last]); }
      Clean(init + [last]);
      Pieces(a, sep);
    }
  }

  /** A carriage return before a separator changes no piece. */
  lemma PiecesCrBeforeSep(a: string, b: string, sep: char)
    requires sep != '\r'
    ensures Pieces(a + ['\r', sep] + b, sep) == Pieces(a + [sep] + b, sep)
  {
    assert a + ['\r', sep] + b == (a + ['\r']) + [sep] + b;
    PiecesAppend(a + ['\r'], b, sep);
    PiecesAppend(a, b, sep);
    PiecesDropsCr(a, sep);
  }

  /** `s.startsWith(p)`. */
  predicate StartsWith(s: string, p: string) {
    |p| <= |s| && s[..|p|] == p
  }

  /** Lower-casing of one character, for the ASCII letters. */
  function LowerChar(c: char): (r: char)
    ensures 'A' <= c <= 'Z' ==> r as int == c as int + 32
    ensures !('A' <= c <= 'Z') ==> r == c
  {
    if 'A' <= c <= 'Z' then (c as int + 32) as char else c
  }

  /** `s.toLowerCase()` restricted to ASCII letters. */
  function ToLower(s: string): (r: string)
    ensures |r| == |s|
    ensures forall i :: 0 <= i < |s| ==> r[i] == LowerChar(s[i])
  {
    if |s| == 0 then "" else [LowerChar(s[0])] + ToLower(s[1..])
  }

  function DigitChar(d: int): char
    requires 0 <= d < 10
  {
    "0123456789"[d]
  }

  predicate IsDigit(c: char) {
    '0' <= c <= '9'
  }

  /** The decimal numeral of `n`, with no leading zero. */
  function NatToString(n: nat): (r: string)
    ensures |r| >= 1
    ensures forall i :: 0 <= i < |r| ==> IsDigit(r[i])
    ensures r[0] == '0' ==> n == 0
  {
    if n < 10 then [DigitChar(n)]
    else NatToString(n / 10) + [DigitChar(n % 10)]
  }

  /** The value of a string of decimal digits. */
  function DigitsValue(s: string): nat
    requires forall i :: 0 <= i < |s| ==> IsDigit(s[i])
  {
    if |s| == 0 then 0
    else
      assert IsDigit(s[|s| - 1]);
      DigitsValue(s[..|s| - 1]) * 10 + (s[|s| - 1] as int - '0' as int)
  }

  /** The numeral reads back as the number it was made from. */
  lemma {:induction false} NatToStringValue(n: nat)
    ensures DigitsValue(NatToString(n)) == n
  {
    if n >= 10 {
      NatToStringValue(n / 10);
      var r := NatToString(n);
      assert r[..|r| - 1] == NatToString(n / 10);
    }
  }

  /** Distinct numbers have distinct numerals. */
  lemma NatToStringInjective(m: nat, n: nat)
    requires NatToString(m) == NatToString(n)
    ensures m == n
  {
    NatToStringValue(m);
    NatToStringValue(n);
  }

  /** JavaScript's `String(n)` for an integral number. */
  function IntToString(n: int): (r: string)
    ensures n >= 0 ==> r == NatToString(n)
    ensures n < 0 ==> r == "-" + NatToString(-n)
  {
    if n < 0 then "-" + NatToString(-n) else NatToString(n)
  }
}
