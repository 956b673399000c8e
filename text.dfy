/**
 * The JavaScript string operations the application relies on, over `string`
 * (a sequence of UTF-16 code units' characters): `trim`, the `\s` and `\d`
 * regular-expression classes, `toLowerCase` on ASCII letters, `includes`,
 * `split` on one character, `join`, and decimal rendering and parsing of
 * natural numbers (`String(n)`, `parseInt(digits, 10)`).
 */
module Text {
  import opened Lists

  /** The code points ECMAScript counts as WhiteSpace or LineTerminator: what
      `String.prototype.trim` strips and what the class `\s` matches. */
  predicate IsSpace(c: char) {
    c == '\t' || c == '\n' || c == '\U{000B}' || c == '\U{000C}' || c == '\r' || c == ' '
    || c == '\U{00A0}' || c == '\U{1680}' || ('\U{2000}' <= c <= '\U{200A}')
    || c == '\U{2028}' || c == '\U{2029}' || c == '\U{202F}' || c == '\U{205F}'
    || c == '\U{3000}' || c == '\U{FEFF}'
  }

  /** The class `\d`: ASCII decimal digits only. */
  predicate IsDigit(c: char) {
    '0' <= c <= '9'
  }

  predicate AllSpace(s: string) {
    forall i :: 0 <= i < |s| ==> IsSpace(s[i])
  }

  predicate AllDigits(s: string) {
    forall i :: 0 <= i < |s| ==> IsDigit(s[i])
  }

  // ---------------------------------------------------------------- trim

  /** Number of whitespace characters at the start of `s`. */
  function LeadingSpace(s: string): (k: nat)
    ensures k <= |s|
    ensures AllSpace(s[..k])
    ensures k < |s| ==> !IsSpace(s[k])
  {
    if s != [] && IsSpace(s[0]) then 1 + LeadingSpace(s[1..]) else 0
  }

  /** Number of whitespace characters at the end of `s`. */
  function TrailingSpace(s: string): (k: nat)
    ensures k <= |s|
    ensures AllSpace(s[|s| - k..])
    ensures k < |s| ==> !IsSpace(s[|s| - 1 - k])
  {
    if s != [] && IsSpace(s[|s| - 1]) then
      var t := s[..|s| - 1];
      var k := TrailingSpace(t);
      var u := s[|s| - (1 + k)..];
      forall i | 0 <= i < |u|
        ensures IsSpace(u[i])
      {
        if i < k {
          assert u[i] == t[|t| - k..][i];
        }
      }
      assert 1 + k < |s| ==> s[|s| - 1 - (1 + k)] == t[|t| - 1 - k];
      1 + k
    else 0
  }

  /** A string with no whitespace at either end. */
  predicate IsTrimmed(s: string) {
    s == [] || (!IsSpace(s[0]) && !IsSpace(s[|s| - 1]))
  }

  /** `s.trim()`: the infix of `s` left after removing the whitespace at both
      ends. */
  function Trim(s: string): (r: string)
    ensures IsTrimmed(r)
    ensures r == [] <==> AllSpace(s)
    ensures |r| <= |s|
    ensures LeadingSpace(s) + |r| <= |s|
    ensures r == s[LeadingSpace(s)..LeadingSpace(s) + |r|]
    ensures AllSpace(s[LeadingSpace(s) + |r|..])
  {
    var a := LeadingSpace(s);
    var t := s[a..];
    var b := TrailingSpace(t);
    assert a == |s| ==> s[..a] == s;
    assert t != [] ==> !IsSpace(t[0]);
    assert t[..|t| - b] == s[a..a + |t| - b];
    assert s[a + |t| - b..] == t[|t| - b..];
    t[..|t| - b]
  }

  /** A trimmed string is its own trim. */
  lemma TrimOfTrimmed(s: string)
    requires IsTrimmed(s)
    ensures Trim(s) == s
  {
  }

  /** Whitespace in front of a string does not survive `trim`. */
  lemma {:induction false} TrimSpacePrefix(c: char, s: string)
    requires IsSpace(c)
    ensures Trim([c] + s) == Trim(s)
  {
    assert ([c] + s)[1..] == s;
  }

  // ---------------------------------------------------------------- case

  /** `toLowerCase` on one character; only ASCII letters are mapped. */
  function LowerChar(c: char): char {
    if 'A' <= c <= 'Z' then (c as int + 32) as char else c
  }

  function Lower(s: string): (r: string)
    ensures |r| == |s|
    ensures forall i :: 0 <= i < |s| ==> r[i] == LowerChar(s[i])
  {
    seq(|s|, i requires 0 <= i < |s| => LowerChar(s[i]))
  }

  /** `q.trim().toLowerCase()`: the key a search box compares against. */
  function SearchKey(query: string): (q: string)
    ensures q == "" <==> AllSpace(query)
  {
    Lower(Trim(query))
  }

  // ---------------------------------------------------------------- includes

  /** `s.includes(q)`: `q` occurs in `s` at some position. */
  predicate Contains(s: string, q: string)
    decreases |s|
  {
    q <= s || (s != [] && Contains(s[1..], q))
  }

  // ---------------------------------------------------------------- split / join

  /** `parts.join(sep)`. */
  function Join(parts: seq<string>, sep: string): string
    decreases |parts|
  {
    if |parts| == 0 then ""
    else if |parts| == 1 then parts[0]
    else parts[0] + sep + Join(parts[1..], sep)
  }

  /** `s.split(sep)` for a one-character separator: the maximal runs between
      separators, so there is always at least one part. */
  function Split(s: string, sep: char): (parts: seq<string>)
    ensures |parts| >= 1
    ensures forall k :: 0 <= k < |parts| ==> sep !in parts[k]
    ensures Join(parts, [sep]) == s
    decreases |s|
  {
    if s == [] then [""]
    else
      var rest := Split(s[1..], sep);
      if s[0] == sep then
        assert s == [sep] + s[1..];
        [""] + rest
      else
        var parts := [[s[0]] + rest[0]] + rest[1..];
        assert parts[1..] == rest[1..];
        assert |rest| > 1 ==> rest == [rest[0]] + rest[1..];
        assert s == [s[0]] + s[1..];
        parts
  }

  /** Splitting a piece that holds no separator, followed by the separator. */
  lemma {:induction false} SplitAfterPiece(p: string, sep: char, rest: string)
    requires sep !in p
    ensures Split(p + [sep] + rest, sep) == [p] + Split(rest, sep)
    decreases |p|
  {
    if p == [] {
      assert p + [sep] + rest == [sep] + rest;
      assert ([sep] + rest)[1..] == rest;
    } else {
      var s := p + [sep] + rest;
      assert s[1..] == p[1..] + [sep] + rest;
      assert s[0] == p[0] && s[0] != sep;
      SplitAfterPiece(p[1..], sep, rest);
      var r1 := Split(s[1..], sep);
      assert r1 == [p[1..]] + Split(rest, sep);
      assert Split(s, sep) == [[s[0]] + r1[0]] + r1[1..];
      assert [s[0]] + r1[0] == p;
    }
  }

  /** Splitting a string with a non-separator character in front. */
  lemma {:induction false} SplitAfterChar(c: char, sep: char, s: string)
    requires c != sep
    ensures Split([c] + s, sep) == [[c] + Split(s, sep)[0]] + Split(s, sep)[1..]
  {
    assert ([c] + s)[1..] == s;
  }

  /** Join and split are inverse on separator-free pieces. */
  lemma {:induction false} SplitJoin(parts: seq<string>, sep: char)
    requires |parts| >= 1
    requires forall k :: 0 <= k < |parts| ==> sep !in parts[k]
    ensures Split(Join(parts, [sep]), sep) == parts
    decreases |parts|
  {
    if |parts| == 1 {
      SplitNoSeparator(parts[0], sep);
    } else {
      SplitJoin(parts[1..], sep);
      assert Join(parts, [sep]) == parts[0] + [sep] + Join(parts[1..], [sep]);
      SplitAfterPiece(parts[0], sep, Join(parts[1..], [sep]));
      assert parts == [parts[0]] + parts[1..];
    }
  }

  lemma {:induction false} SplitNoSeparator(p: string, sep: char)
    requires sep !in p
    ensures Split(p, sep) == [p]
    decreases |p|
  {
    if p != [] {
      assert sep !in p[1..];
      SplitNoSeparator(p[1..], sep);
      assert p == [p[0]] + p[1..];
    }
  }

  // ---------------------------------------------------------------- comma lists

  /** `list.map((s) => s.trim())`. */
  function TrimAll(parts: seq<string>): (r: seq<string>)
    ensures |r| == |parts|
    ensures forall k :: 0 <= k < |r| ==> r[k] == Trim(parts[k])
  {
    seq(|parts|, k requires 0 <= k < |parts| => Trim(parts[k]))
  }

  /** `list.filter(Boolean)` on strings: drop the empty ones, keep the order. */
  function NonEmpty(parts: seq<string>): (r: seq<string>)
    ensures forall k :: 0 <= k < |r| ==> r[k] != "" && r[k] in parts
    ensures |r| <= |parts|
    ensures (forall k :: 0 <= k < |parts| ==> parts[k] != "") ==> r == parts
    ensures forall p :: p in parts && p != "" ==> p in r
  {
    if parts == [] then []
    else
      var rest := NonEmpty(parts[1..]);
      assert forall p :: p in parts && p != parts[0] ==> p in parts[1..];
      if parts[0] == "" then rest
      else
        assert ([parts[0]] + rest)[1..] == rest;
        [parts[0]] + rest
  }

  /** `Boolean` on a string. */
  predicate Filled(s: string) {
    s != ""
  }

  /** `filter(Boolean)` on strings is `Array.prototype.filter`: it keeps
      every non-empty string as often as it occurs, in order. */
  lemma {:induction false} NonEmptyIsFilter(parts: seq<string>)
    ensures NonEmpty(parts) == Filter(parts, Filled)
    decreases |parts|
  {
    if parts != [] {
      NonEmptyIsFilter(parts[1..]);
    }
  }

  lemma {:induction false} NonEmptyAppend(a: seq<string>, b: seq<string>)
    ensures NonEmpty(a + b) == NonEmpty(a) + NonEmpty(b)
    decreases |a|
  {
    if a != [] {
      assert (a + b)[1..] == a[1..] + b;
      NonEmptyAppend(a[1..], b);
    } else {
      assert a + b == b;
    }
  }

  /** `String(s).split(",").map((t) => t.trim()).filter(Boolean)`: the
      non-empty trimmed comma-separated entries of `s`, in order. */
  function CommaList(s: string): (r: seq<string>)
    ensures forall k :: 0 <= k < |r| ==> r[k] != "" && IsTrimmed(r[k]) && ',' !in r[k]
  {
    var parts := Split(s, ',');
    var trimmed := TrimAll(parts);
    assert forall k :: 0 <= k < |trimmed| ==> ',' !in trimmed[k] by {
      forall k | 0 <= k < |trimmed| ensures ',' !in trimmed[k] {
        TrimIsInfix(parts[k]);
      }
    }
    NonEmpty(trimmed)
  }

  /** Every character of `Trim(s)` is a character of `s`. */
  lemma TrimIsInfix(s: string)
    ensures forall c :: c in Trim(s) ==> c in s
  {
    var a := LeadingSpace(s);
    var t := s[a..];
    var b := TrailingSpace(t);
    forall c | c in t[..|t| - b] ensures c in s {
      var i :| 0 <= i < |t| - b && t[..|t| - b][i] == c;
      assert s[a + i] == c;
    }
  }

  /** A membership test on a comma list: `x` is listed exactly when it is
      one of the trimmed, non-empty comma-separated entries. */
  lemma CommaListMembers(s: string, x: string)
    ensures x in CommaList(s) <==> x != "" && x in TrimAll(Split(s, ','))
  {
  }

  /** The pieces `tags.join(", ")` is made of when read as a comma list:
      the first tag, then every other tag with its leading space. */
  function SpacePieces(tags: seq<string>): (r: seq<string>)
    requires |tags| >= 1
    ensures |r| == |tags| && r[0] == tags[0]
    ensures forall k :: 1 <= k < |tags| ==> r[k] == " " + tags[k]
  {
    [tags[0]] + seq(|tags| - 1, k requires 0 <= k < |tags| - 1 => " " + tags[k + 1])
  }

  lemma TrimAllSpacePieces(tags: seq<string>)
    requires |tags| >= 1
    requires forall k :: 0 <= k < |tags| ==> IsTrimmed(tags[k])
    ensures TrimAll(SpacePieces(tags)) == tags
  {
    var pieces := SpacePieces(tags);
    forall k | 0 <= k < |pieces| ensures Trim(pieces[k]) == tags[k] {
      if k == 0 {
        TrimOfTrimmed(tags[0]);
      } else {
        assert pieces[k] == [' '] + tags[k];
        TrimSpacePrefix(' ', tags[k]);
        TrimOfTrimmed(tags[k]);
      }
    }
  }

  lemma CommaListUnfold(s: string)
    ensures CommaList(s) == NonEmpty(TrimAll(Split(s, ',')))
  {
  }

  lemma SpacePiecesCommaFree(tags: seq<string>)
    requires |tags| >= 1
    requires forall k :: 0 <= k < |tags| ==> ',' !in tags[k]
    ensures forall k :: 0 <= k < |tags| ==> ',' !in SpacePieces(tags)[k]
  {
    var pieces := SpacePieces(tags);
    forall k | 0 <= k < |pieces| ensures ',' !in pieces[k] {
      if k > 0 {
        assert pieces[k] == [' '] + tags[k];
      }
    }
  }

  /** `tags.join(", ")` read back by `CommaList` gives the same tags when
      every tag is trimmed, non-empty and free of commas. */
  lemma {:induction false} CommaListOfJoin(tags: seq<string>)
    requires forall k :: 0 <= k < |tags| ==> tags[k] != "" && IsTrimmed(tags[k]) && ',' !in tags[k]
    ensures CommaList(Join(tags, ", ")) == tags
  {
    if tags == [] {
      assert Join(tags, ", ") == "";
      CommaListOfEmpty();
    } else {
      var joined := Join(tags, ", ");
      PiecesOfJoin(tags);
      CommaListUnfold(joined);
      assert CommaList(joined) == NonEmpty(tags);
    }
  }

  /** An empty list has no entries. */
  lemma CommaListOfEmpty()
    ensures CommaList("") == []
  {
    CommaListUnfold("");
    SplitOfEmpty(',');
    TrimAllOfEmpty();
    NonEmptyOne("");
  }

  lemma SplitOfEmpty(sep: char)
    ensures Split("", sep) == [""]
  {
  }

  lemma TrimAllOfEmpty()
    ensures TrimAll([""]) == [""]
  {
    assert Trim("") == "" by {
      assert AllSpace("");
    }
  }

  lemma NonEmptyOne(p: string)
    ensures NonEmpty([p]) == if p == "" then [] else [p]
  {
    assert [p][1..] == [];
  }

  /** Splitting `tags.join(", ")` at its commas and trimming the pieces
      gives the tags back. */
  lemma PiecesOfJoin(tags: seq<string>)
    requires |tags| >= 1
    requires forall k :: 0 <= k < |tags| ==> IsTrimmed(tags[k]) && ',' !in tags[k]
    ensures TrimAll(Split(Join(tags, ", "), ',')) == tags
  {
    var pieces := SpacePieces(tags);
    JoinCommaSpace(tags);
    SpacePiecesCommaFree(tags);
    SplitJoin(pieces, ',');
    assert Split(Join(tags, ", "), ',') == pieces;
    TrimAllSpacePieces(tags);
  }

  /** `Join(tags, ", ")` is the comma join of the tags with a space put in
      front of every tag but the first. */
  lemma {:induction false} JoinCommaSpace(tags: seq<string>)
    requires |tags| >= 1
    ensures Join(tags, ", ") == Join(SpacePieces(tags), ",")
    decreases |tags|
  {
    var pieces := SpacePieces(tags);
    if |tags| > 1 {
      var tail := tags[1..];
      JoinCommaSpace(tail);
      var tailPieces := SpacePieces(tail);
      assert pieces[1..] == [" " + tail[0]] + tailPieces[1..];
      JoinSpaceFront(tail[0], tailPieces);
    }
  }

  /** Putting a space in front of the first piece puts it in front of the join. */
  lemma JoinSpaceFront(first: string, pieces: seq<string>)
    requires |pieces| >= 1 && pieces[0] == first
    ensures Join([" " + first] + pieces[1..], ",") == " " + Join(pieces, ",")
  {
    if |pieces| > 1 {
      assert ([" " + first] + pieces[1..])[1..] == pieces[1..];
    }
  }

  // ---------------------------------------------------------------- decimal numbers

  /** Number of digits at the start of `s`. */
  function LeadingDigits(s: string): (k: nat)
    ensures k <= |s|
    ensures AllDigits(s[..k])
    ensures k < |s| ==> !IsDigit(s[k])
  {
    if s != [] && IsDigit(s[0]) then
      var k := LeadingDigits(s[1..]);
      assert s[..1 + k] == [s[0]] + s[1..][..k];
      1 + k
    else 0
  }

  /** The leading digits of digits followed by a non-digit are exactly those. */
  lemma {:induction false} LeadingDigitsOf(d: string, rest: string)
    requires AllDigits(d) && (rest == "" || !IsDigit(rest[0]))
    ensures LeadingDigits(d + rest) == |d|
    decreases |d|
  {
    if d != "" {
      assert (d + rest)[1..] == d[1..] + rest;
      LeadingDigitsOf(d[1..], rest);
    }
  }

  function DigitChar(d: nat): (c: char)
    requires d < 10
    ensures IsDigit(c)
  {
    ('0' as int + d) as char
  }

  function DigitValue(c: char): (d: nat)
    requires IsDigit(c)
    ensures d < 10
  {
    c as int - '0' as int
  }

  /** `String(n)` for a natural number: decimal digits without leading zeros. */
  function NatToString(n: nat): (r: string)
    ensures |r| >= 1 && AllDigits(r)
    ensures r[0] == '0' ==> n == 0 && r == "0"
    decreases n
  {
    if n < 10 then [DigitChar(n)] else NatToString(n / 10) + [DigitChar(n % 10)]
  }

  /** The value of a string of decimal digits, as `parseInt(s, 10)` reads it. */
  function DigitsValue(s: string): nat
    requires AllDigits(s)
  {
    if s == [] then 0 else DigitsValue(s[..|s| - 1]) * 10 + DigitValue(s[|s| - 1])
  }

  /** Reading back what `NatToString` prints gives the number. */
  lemma {:induction false} DigitsValueOfNatToString(n: nat)
    ensures DigitsValue(NatToString(n)) == n
    decreases n
  {
    if n >= 10 {
      DigitsValueOfNatToString(n / 10);
      var s := NatToString(n);
      assert s[..|s| - 1] == NatToString(n / 10);
    }
  }

  /** Printing the value of a digit string drops exactly its leading zeros. */
  lemma {:induction false} NatToStringOfDigits(s: string)
    requires AllDigits(s) && s != [] && s[0] != '0'
    ensures NatToString(DigitsValue(s)) == s
    decreases |s|
  {
    if |s| > 1 {
      var init := s[..|s| - 1];
      NatToStringOfDigits(init);
      DigitsValuePositive(init);
      var v := DigitsValue(s);
      assert v / 10 == DigitsValue(init) && v % 10 == DigitValue(s[|s| - 1]);
      assert s == init + [s[|s| - 1]];
    }
  }

  lemma {:induction false} DigitsValuePositive(s: string)
    requires AllDigits(s) && s != [] && s[0] != '0'
    ensures DigitsValue(s) >= 1
    decreases |s|
  {
    if |s| > 1 {
      DigitsValuePositive(s[..|s| - 1]);
    }
  }

  /** Numbers of four digits print as four characters. */
  lemma NatToStringLength4(n: nat)
    requires 1000 <= n <= 9999
    ensures |NatToString(n)| == 4
  {
    var a, b, c := n / 10, n / 10 / 10, n / 10 / 10 / 10;
    assert 100 <= a <= 999 && 10 <= b <= 99 && 1 <= c <= 9;
    assert |NatToString(c)| == 1;
    assert |NatToString(b)| == 2;
    assert |NatToString(a)| == 3;
  }

  /** `String(i)` for an integer: a minus sign in front of negative values. */
  function IntToString(i: int): (r: string)
    ensures i >= 0 ==> r == NatToString(i)
  {
    if i < 0 then "-" + NatToString(-i) else NatToString(i)
  }

  /** `String(s).padStart(2, "0")`. */
  function PadStart2(s: string): (r: string)
    ensures |r| == if |s| < 2 then 2 else |s|
    ensures r[|r| - |s|..] == s
    ensures forall i :: 0 <= i < |r| - |s| ==> r[i] == '0'
  {
    if |s| == 0 then "00" else if |s| == 1 then "0" + s else s
  }
}
