/**
 * The quantity box of the ingredients step. Every keystroke passes the
 * typed text through three regular-expression replacements before it is
 * stored: drop every character other than digits, `.`, `/` and
 * whitespace; pull whitespace out from around each `/`; and collapse every
 * run of whitespace to one space.
 */
module IngredientsStep {
  import opened Text
  import opened Lists

  /** A character the class `[\d./\s]` matches. */
  predicate IsQuantityChar(c: char) {
    IsDigit(c) || c == '.' || c == '/' || IsSpace(c)
  }

  /** A character none of the whitespace rules touch: a digit, `.` or `/`. */
  predicate IsSolid(c: char) {
    IsDigit(c) || c == '.' || c == '/'
  }

  /** No whitespace directly before or after a `/`. */
  predicate NoSpaceBesideSlash(s: string) {
    forall i :: 0 <= i < |s| - 1 ==> !(IsSpace(s[i]) && s[i + 1] == '/') && !(s[i] == '/' && IsSpace(s[i + 1]))
  }

  /** Whitespace, where there is any, is single plain spaces. */
  predicate SingleSpaces(s: string) {
    (forall i :: 0 <= i < |s| ==> IsSpace(s[i]) ==> s[i] == ' ')
    && (forall i :: 0 <= i < |s| - 1 ==> !(s[i] == ' ' && s[i + 1] == ' '))
  }

  /** The digits, dots and slashes of `s`, in order. */
  function Solid(s: string): (r: string)
    ensures |r| <= |s|
  {
    if s == "" then "" else (if IsSolid(s[0]) then [s[0]] else "") + Solid(s[1..])
  }

  lemma {:induction false} SolidAppend(a: string, b: string)
    ensures Solid(a + b) == Solid(a) + Solid(b)
    decreases |a|
  {
    if a == "" {
      assert a + b == b;
    } else {
      assert (a + b)[0] == a[0];
      assert (a + b)[1..] == a[1..] + b;
      SolidAppend(a[1..], b);
      var head := if IsSolid(a[0]) then [a[0]] else "";
      assert Solid(a + b) == head + Solid(a[1..] + b);
      assert Solid(a) == head + Solid(a[1..]);
    }
  }

  lemma {:induction false} SolidOfSpaces(s: string)
    requires AllSpace(s)
    ensures Solid(s) == ""
    decreases |s|
  {
    if s != "" {
      SolidOfSpaces(s[1..]);
    }
  }

  // ---------------------------------------------------------------- the three replacements

  /** `.replace(/[^\d./\s]/g, "")`. */
  function KeepQuantityChars(s: string): (r: string)
    ensures forall i :: 0 <= i < |r| ==> IsQuantityChar(r[i])
    ensures |r| <= |s|
  {
    if s == "" then "" else (if IsQuantityChar(s[0]) then [s[0]] else "") + KeepQuantityChars(s[1..])
  }

  /** The first step is the filter on `[\d./\s]`: every allowed character,
      whitespace included, stays, in order and as often as it was typed. */
  lemma {:induction false} KeepIsFilter(s: string)
    ensures KeepQuantityChars(s) == Filter(s, IsQuantityChar)
    decreases |s|
  {
    if s != "" {
      KeepIsFilter(s[1..]);
    }
  }

  /** The pattern `\s*\/\s*` matches at the start of `s`: a run of
      whitespace followed by a slash. */
  predicate SlashAhead(s: string) {
    LeadingSpace(s) < |s| && s[LeadingSpace(s)] == '/'
  }

  /** `.replace(/\s*\/\s*\/g, "/")`, scanning left to right: where the
      pattern matches, the whitespace, the slash and the whitespace after it
      become one slash; where it does not, the character is kept and the
      scan moves one place on. */
  function TightenSlashes(s: string): (r: string)
    ensures s != "" ==> r != "" && r[0] == (if SlashAhead(s) then '/' else s[0])
    decreases |s|
  {
    if s == "" then ""
    else if SlashAhead(s) then
      var t := s[LeadingSpace(s) + 1..];
      "/" + TightenSlashes(t[LeadingSpace(t)..])
    else [s[0]] + TightenSlashes(s[1..])
  }

  /** `.replace(/\s+/g, " ")`. */
  function CollapseSpaces(s: string): (r: string)
    ensures s != "" ==> r != "" && r[0] == (if IsSpace(s[0]) then ' ' else s[0])
    decreases |s|
  {
    if s == "" then ""
    else if IsSpace(s[0]) then " " + CollapseSpaces(s[LeadingSpace(s)..])
    else [s[0]] + CollapseSpaces(s[1..])
  }

  /** The value the Qty box stores for the typed text `s`. */
  function CleanQuantity(s: string): (r: string)
    ensures forall i :: 0 <= i < |r| ==> IsSolid(r[i]) || r[i] == ' '
    ensures NoSpaceBesideSlash(r)
    ensures SingleSpaces(r)
    ensures Solid(r) == Solid(s)
  {
    var kept := KeepQuantityChars(s);
    var tight := TightenSlashes(kept);
    KeepSolid(s);
    TightenNoSpace(kept);
    TightenSolid(kept);
    TightenChars(kept);
    CollapseSingle(tight);
    CollapseSolid(tight);
    CollapseNoSpace(tight);
    CollapseChars(tight);
    CollapseSpaces(tight)
  }

  // ---------------------------------------------------------------- what each step keeps

  lemma {:induction false} KeepSolid(s: string)
    ensures Solid(KeepQuantityChars(s)) == Solid(s)
    decreases |s|
  {
    if s != "" {
      KeepSolid(s[1..]);
      var head := if IsQuantityChar(s[0]) then [s[0]] else "";
      SolidAppend(head, KeepQuantityChars(s[1..]));
    }
  }

  /** Text made only of the allowed characters passes the first step unchanged. */
  lemma {:induction false} KeepAllowed(s: string)
    requires forall i :: 0 <= i < |s| ==> IsQuantityChar(s[i])
    ensures KeepQuantityChars(s) == s
    decreases |s|
  {
    if s != "" {
      KeepAllowed(s[1..]);
    }
  }

  /** After `TightenSlashes` no whitespace stands beside a slash. */
  lemma {:induction false} TightenNoSpace(s: string)
    ensures NoSpaceBesideSlash(TightenSlashes(s))
    decreases |s|
  {
    if s == "" {
    } else if SlashAhead(s) {
      var t := s[LeadingSpace(s) + 1..];
      var u := t[LeadingSpace(t)..];
      TightenNoSpace(u);
      var rest := TightenSlashes(u);
      assert TightenSlashes(s) == "/" + rest;
      assert rest != "" ==> !IsSpace(rest[0]) by {
        if u != "" {
          assert !IsSpace(u[0]);
        }
      }
      NoSpaceBesideSlashCons('/', rest);
    } else {
      TightenNoSpace(s[1..]);
      var rest := TightenSlashes(s[1..]);
      assert TightenSlashes(s) == [s[0]] + rest;
      assert s[0] != '/';
      assert IsSpace(s[0]) && rest != "" ==> rest[0] != '/' by {
        if IsSpace(s[0]) && rest != "" {
          assert LeadingSpace(s) == 1 + LeadingSpace(s[1..]);
          assert !SlashAhead(s[1..]);
        }
      }
      NoSpaceBesideSlashCons(s[0], rest);
    }
  }

  /** `TightenSlashes` removes whitespace only: the digits, dots and
      slashes stay, in order. */
  lemma {:induction false} TightenSolid(s: string)
    ensures Solid(TightenSlashes(s)) == Solid(s)
    decreases |s|
  {
    if s == "" {
    } else if SlashAhead(s) {
      var w := LeadingSpace(s);
      var t := s[w + 1..];
      var v := LeadingSpace(t);
      var u := t[v..];
      TightenSolid(u);
      var rest := TightenSlashes(u);
      SlashAheadParts(s);
      SolidSkipSpaces(s[..w], "/" + t);
      SolidCons('/', t);
      SolidSkipSpaces(t[..v], u);
      SolidCons('/', rest);
    } else {
      TightenSolid(s[1..]);
      var rest := TightenSlashes(s[1..]);
      assert TightenSlashes(s) == [s[0]] + rest;
      SolidCons(s[0], rest);
      assert s == [s[0]] + s[1..];
      SolidCons(s[0], s[1..]);
    }
  }

  /** Where the pattern matches: the whitespace run, the slash, and the
      whitespace after it, then the rest of the text. */
  lemma SlashAheadParts(s: string)
    requires SlashAhead(s)
    ensures var w := LeadingSpace(s); var t := s[w + 1..]; var v := LeadingSpace(t);
      && s == s[..w] + ("/" + t) && t == t[..v] + t[v..]
      && TightenSlashes(s) == "/" + TightenSlashes(t[v..])
  {
    var w := LeadingSpace(s);
    assert s == s[..w] + [s[w]] + s[w + 1..];
  }

  lemma SolidCons(c: char, y: string)
    ensures Solid([c] + y) == (if IsSolid(c) then [c] else "") + Solid(y)
  {
    assert ([c] + y)[1..] == y;
  }

  lemma SolidSkipSpaces(x: string, y: string)
    requires AllSpace(x)
    ensures Solid(x + y) == Solid(y)
  {
    SolidAppend(x, y);
    SolidOfSpaces(x);
  }

  /** `TightenSlashes` brings in no character other than a slash. */
  lemma {:induction false} TightenChars(s: string)
    requires forall i :: 0 <= i < |s| ==> IsQuantityChar(s[i])
    ensures forall i :: 0 <= i < |TightenSlashes(s)| ==> IsQuantityChar(TightenSlashes(s)[i])
    decreases |s|
  {
    if s == "" {
    } else if SlashAhead(s) {
      var t := s[LeadingSpace(s) + 1..];
      var u := t[LeadingSpace(t)..];
      TightenChars(u);
      assert TightenSlashes(s) == "/" + TightenSlashes(u);
    } else {
      TightenChars(s[1..]);
      assert TightenSlashes(s) == [s[0]] + TightenSlashes(s[1..]);
    }
  }

  lemma NoSpaceBesideSlashCons(c: char, rest: string)
    requires NoSpaceBesideSlash(rest)
    requires rest != "" ==> !(IsSpace(c) && rest[0] == '/') && !(c == '/' && IsSpace(rest[0]))
    ensures NoSpaceBesideSlash([c] + rest)
  {
    var s := [c] + rest;
    forall i | 0 <= i < |s| - 1
      ensures !(IsSpace(s[i]) && s[i + 1] == '/') && !(s[i] == '/' && IsSpace(s[i + 1]))
    {
      if i > 0 {
        assert s[i] == rest[i - 1] && s[i + 1] == rest[i];
      }
    }
  }

  lemma SingleSpacesCons(c: char, rest: string)
    requires SingleSpaces(rest)
    requires IsSpace(c) ==> c == ' '
    requires rest != "" ==> !(c == ' ' && rest[0] == ' ')
    ensures SingleSpaces([c] + rest)
  {
    var s := [c] + rest;
    forall i | 0 <= i < |s| - 1 ensures !(s[i] == ' ' && s[i + 1] == ' ') {
      if i > 0 {
        assert s[i] == rest[i - 1] && s[i + 1] == rest[i];
      }
    }
  }

  /** `CollapseSpaces` leaves single plain spaces only. */
  lemma {:induction false} CollapseSingle(s: string)
    ensures SingleSpaces(CollapseSpaces(s))
    decreases |s|
  {
    if s == "" {
    } else if IsSpace(s[0]) {
      var u := s[LeadingSpace(s)..];
      CollapseSingle(u);
      CollapseAfterSpace(s);
      SingleSpacesCons(' ', CollapseSpaces(u));
    } else {
      CollapseSingle(s[1..]);
      SingleSpacesCons(s[0], CollapseSpaces(s[1..]));
    }
  }

  /** A run of whitespace becomes one space, followed by the collapse of
      what comes after the run, which does not start with whitespace. */
  lemma CollapseAfterSpace(s: string)
    requires s != "" && IsSpace(s[0])
    ensures var u := s[LeadingSpace(s)..];
      && CollapseSpaces(s) == " " + CollapseSpaces(u)
      && (u != "" ==> !IsSpace(u[0]))
      && (CollapseSpaces(u) != "" ==> !IsSpace(CollapseSpaces(u)[0]))
  {
  }

  /** `CollapseSpaces` keeps the digits, dots and slashes, in order. */
  lemma {:induction false} CollapseSolid(s: string)
    ensures Solid(CollapseSpaces(s)) == Solid(s)
    decreases |s|
  {
    if s == "" {
    } else if IsSpace(s[0]) {
      var w := LeadingSpace(s);
      var u := s[w..];
      CollapseSolid(u);
      CollapseAfterSpace(s);
      assert s == s[..w] + u;
      SolidSkipSpaces(s[..w], u);
      SolidCons(' ', CollapseSpaces(u));
    } else {
      CollapseSolid(s[1..]);
      SolidCons(s[0], CollapseSpaces(s[1..]));
      assert s == [s[0]] + s[1..];
      SolidCons(s[0], s[1..]);
    }
  }

  /** `CollapseSpaces` brings no whitespace next to a slash. */
  lemma {:induction false} CollapseNoSpace(s: string)
    requires NoSpaceBesideSlash(s)
    ensures NoSpaceBesideSlash(CollapseSpaces(s))
    decreases |s|
  {
    if s == "" {
    } else if IsSpace(s[0]) {
      var w := LeadingSpace(s);
      var u := s[w..];
      NoSpaceBesideSlashSuffix(s, w);
      CollapseNoSpace(u);
      CollapseAfterSpace(s);
      var rest := CollapseSpaces(u);
      assert rest != "" ==> rest[0] != '/' by {
        if u != "" {
          assert s[w - 1] == s[..w][w - 1];
          assert IsSpace(s[w - 1]) && s[w] == u[0];
        }
      }
      NoSpaceBesideSlashCons(' ', rest);
    } else {
      NoSpaceBesideSlashSuffix(s, 1);
      CollapseNoSpace(s[1..]);
      NoSpaceBesideSlashCons(s[0], CollapseSpaces(s[1..]));
    }
  }

  lemma NoSpaceBesideSlashSuffix(s: string, w: nat)
    requires w <= |s| && NoSpaceBesideSlash(s)
    ensures NoSpaceBesideSlash(s[w..])
  {
    var u := s[w..];
    forall i | 0 <= i < |u| - 1
      ensures !(IsSpace(u[i]) && u[i + 1] == '/') && !(u[i] == '/' && IsSpace(u[i + 1]))
    {
      assert u[i] == s[w + i] && u[i + 1] == s[w + i + 1];
    }
  }

  /** After the first two steps, the only characters left are digits, dots,
      slashes and (after collapsing) plain spaces. */
  lemma {:induction false} CollapseChars(s: string)
    requires forall i :: 0 <= i < |s| ==> IsQuantityChar(s[i])
    ensures forall i :: 0 <= i < |CollapseSpaces(s)| ==> IsSolid(CollapseSpaces(s)[i]) || CollapseSpaces(s)[i] == ' '
    decreases |s|
  {
    if s == "" {
    } else if IsSpace(s[0]) {
      var u := s[LeadingSpace(s)..];
      CollapseChars(u);
      assert CollapseSpaces(s) == " " + CollapseSpaces(u);
    } else {
      CollapseChars(s[1..]);
      assert CollapseSpaces(s) == [s[0]] + CollapseSpaces(s[1..]);
    }
  }

  // ---------------------------------------------------------------- fixed points

  /** Text with no whitespace beside a slash passes the second step unchanged. */
  lemma {:induction false} TightenFixed(s: string)
    requires NoSpaceBesideSlash(s)
    ensures TightenSlashes(s) == s
    decreases |s|
  {
    if s != "" {
      assert NoSpaceBesideSlash(s[1..]) by {
        forall i | 0 <= i < |s[1..]| - 1
          ensures !(IsSpace(s[1..][i]) && s[1..][i + 1] == '/') && !(s[1..][i] == '/' && IsSpace(s[1..][i + 1]))
        {
          assert s[1..][i] == s[i + 1] && s[1..][i + 1] == s[i + 2];
        }
      }
      TightenFixed(s[1..]);
      if SlashAhead(s) {
        var w := LeadingSpace(s);
        assert w == 0;
        var t := s[1..];
        assert t[LeadingSpace(t)..] == t;
      }
    }
  }

  /** Text whose whitespace is already single plain spaces passes the
      third step unchanged. */
  lemma {:induction false} CollapseFixed(s: string)
    requires SingleSpaces(s)
    ensures CollapseSpaces(s) == s
    decreases |s|
  {
    if s != "" {
      assert SingleSpaces(s[1..]) by {
        forall i | 0 <= i < |s[1..]| - 1 ensures !(s[1..][i] == ' ' && s[1..][i + 1] == ' ') {
          assert s[1..][i] == s[i + 1] && s[1..][i + 1] == s[i + 2];
        }
      }
      CollapseFixed(s[1..]);
      if IsSpace(s[0]) {
        assert LeadingSpace(s) == 1 by {
          if |s| > 1 {
            assert !(s[0] == ' ' && s[1] == ' ');
            assert !IsSpace(s[1]);
          }
        }
      }
    }
  }

  /** A quantity already in the stored form passes all three steps
      unchanged. */
  lemma CleanQuantityOfClean(q: string)
    requires forall i :: 0 <= i < |q| ==> IsSolid(q[i]) || q[i] == ' '
    requires NoSpaceBesideSlash(q) && SingleSpaces(q)
    ensures CleanQuantity(q) == q
  {
    assert forall i :: 0 <= i < |q| ==> IsQuantityChar(q[i]);
    KeepAllowed(q);
    TightenFixed(q);
    CollapseFixed(q);
  }

  /** Cleaning an already cleaned quantity leaves it unchanged, so the box
      never fights the user's next keystroke. */
  lemma CleanQuantityIdempotent(s: string)
    ensures CleanQuantity(CleanQuantity(s)) == CleanQuantity(s)
  {
    CleanQuantityOfClean(CleanQuantity(s));
  }

  // ---------------------------------------------------------------- match by match

  /** What follows a match of `\s*\/\s*` at the start of `s`. */
  function AfterMatch(s: string): (r: string)
    requires SlashAhead(s)
    ensures |r| < |s|
  {
    var t := s[LeadingSpace(s) + 1..];
    t[LeadingSpace(t)..]
  }

  /** A match at the start becomes one slash. */
  lemma TightenMatch(s: string)
    requires SlashAhead(s)
    ensures TightenSlashes(s) == "/" + TightenSlashes(AfterMatch(s))
  {
  }

  /** With no match at the start, the first character is kept. */
  lemma TightenKeep(s: string)
    requires s != "" && !SlashAhead(s)
    ensures TightenSlashes(s) == [s[0]] + TightenSlashes(s[1..])
  {
  }

  /** A whitespace run at the start becomes one space. */
  lemma CollapseRunStep(s: string)
    requires s != "" && IsSpace(s[0])
    ensures CollapseSpaces(s) == " " + CollapseSpaces(s[LeadingSpace(s)..])
  {
  }

  /** Any other first character is kept. */
  lemma CollapseKeep(s: string)
    requires s != "" && !IsSpace(s[0])
    ensures CollapseSpaces(s) == [s[0]] + CollapseSpaces(s[1..])
  {
  }

  lemma AppendAssoc(x: string, y: string, z: string)
    ensures x + (y + z) == (x + y) + z
  {
  }

  /** The whitespace run at the front of `w + b` is all of `w` when `b`
      does not start with whitespace. */
  lemma {:induction false} LeadingSpaceOfRun(w: string, b: string)
    requires AllSpace(w) && (b == "" || !IsSpace(b[0]))
    ensures LeadingSpace(w + b) == |w|
    decreases |w|
  {
    if w == "" {
      assert w + b == b;
    } else {
      assert (w + b)[0] == w[0];
      assert (w + b)[1..] == w[1..] + b;
      LeadingSpaceOfRun(w[1..], b);
    }
  }

  /** The whitespace run at the front of text that ends in a non-whitespace
      character stops inside it, whatever follows. */
  lemma {:induction false} LeadingSpaceAppend(a: string, b: string)
    requires a != "" && !IsSpace(a[|a| - 1])
    ensures LeadingSpace(a + b) == LeadingSpace(a) < |a|
    decreases |a|
  {
    assert (a + b)[0] == a[0];
    if |a| > 1 && IsSpace(a[0]) {
      assert (a + b)[1..] == a[1..] + b;
      assert a[1..][|a[1..]| - 1] == a[|a| - 1];
      LeadingSpaceAppend(a[1..], b);
    }
  }

  /** A match inside text that ends in neither whitespace nor a slash is
      the same match when more text follows. */
  lemma MatchInAppend(a: string, b: string)
    requires a != "" && !IsSpace(a[|a| - 1]) && a[|a| - 1] != '/' && SlashAhead(a)
    ensures SlashAhead(a + b) && AfterMatch(a + b) == AfterMatch(a) + b
    ensures AfterMatch(a) != "" && AfterMatch(a)[|AfterMatch(a)| - 1] == a[|a| - 1]
  {
    LeadingSpaceAppend(a, b);
    var k := LeadingSpace(a);
    assert (a + b)[k] == a[k];
    var t := a[k + 1..];
    assert t != "" && t[|t| - 1] == a[|a| - 1];
    DropAppend(a, b, k + 1);
    SkipSpaceAppend(t, b);
  }

  lemma DropAppend(a: string, b: string, n: nat)
    requires n <= |a|
    ensures (a + b)[n..] == a[n..] + b
  {
  }

  /** Skipping the leading whitespace of text that ends in a
      non-whitespace character, with more text after it. */
  lemma SkipSpaceAppend(t: string, b: string)
    requires t != "" && !IsSpace(t[|t| - 1])
    ensures (t + b)[LeadingSpace(t + b)..] == t[LeadingSpace(t)..] + b
    ensures t[LeadingSpace(t)..] != "" && t[LeadingSpace(t)..][|t[LeadingSpace(t)..]| - 1] == t[|t| - 1]
  {
    LeadingSpaceAppend(t, b);
    DropAppend(t, b, LeadingSpace(t));
  }

  /** No match at the start of such text: none at the start of `a + b`
      either. */
  lemma NoMatchInAppend(a: string, b: string)
    requires a != "" && !IsSpace(a[|a| - 1]) && !SlashAhead(a)
    ensures !SlashAhead(a + b) && (a + b)[0] == a[0] && (a + b)[1..] == a[1..] + b
  {
    LeadingSpaceAppend(a, b);
    assert (a + b)[LeadingSpace(a)] == a[LeadingSpace(a)];
  }

  /** No match of `\s*\/\s*` crosses a point just after a character that is
      neither whitespace nor a slash, so the slash rewrite works on each side
      separately. */
  lemma {:induction false} TightenAppend(a: string, b: string)
    requires a == "" || (!IsSpace(a[|a| - 1]) && a[|a| - 1] != '/')
    ensures TightenSlashes(a + b) == TightenSlashes(a) + TightenSlashes(b)
    decreases |a|
  {
    if a == "" {
      assert a + b == b;
    } else if SlashAhead(a) {
      MatchInAppend(a, b);
      var rest := AfterMatch(a);
      TightenMatch(a);
      TightenMatch(a + b);
      TightenAppend(rest, b);
      AppendAssoc("/", TightenSlashes(rest), TightenSlashes(b));
    } else {
      NoMatchInAppend(a, b);
      var rest := a[1..];
      assert rest != "" ==> rest[|rest| - 1] == a[|a| - 1];
      TightenKeep(a);
      TightenKeep(a + b);
      TightenAppend(rest, b);
      AppendAssoc([a[0]], TightenSlashes(rest), TightenSlashes(b));
    }
  }

  /** A whitespace run with no slash after it is kept as it is. */
  lemma {:induction false} TightenKeepsSpaces(w: string, b: string)
    requires AllSpace(w) && (b == "" || (!IsSpace(b[0]) && b[0] != '/'))
    ensures TightenSlashes(w + b) == w + TightenSlashes(b)
    decreases |w|
  {
    if w == "" {
      assert w + b == b;
    } else {
      LeadingSpaceOfRun(w, b);
      assert !SlashAhead(w + b) by {
        if |w| < |w + b| {
          assert (w + b)[|w|] == b[0];
        }
      }
      assert (w + b)[0] == w[0] && (w + b)[1..] == w[1..] + b;
      TightenKeep(w + b);
      TightenKeepsSpaces(w[1..], b);
      assert w == [w[0]] + w[1..];
      AppendAssoc([w[0]], w[1..], TightenSlashes(b));
    }
  }

  /** One match: the whitespace before a slash, the slash and the
      whitespace after it become a single slash. */
  lemma TightenAroundSlash(w1: string, w2: string, b: string)
    requires AllSpace(w1) && AllSpace(w2) && (b == "" || !IsSpace(b[0]))
    ensures TightenSlashes(w1 + "/" + w2 + b) == "/" + TightenSlashes(b)
  {
    var m := "/" + w2 + b;
    var s := w1 + "/" + w2 + b;
    AppendAssoc(w1, "/", w2);
    AppendAssoc(w1, "/" + w2, b);
    AppendAssoc("/", w2, b);
    assert s == w1 + m && m[0] == '/' && m[1..] == w2 + b;
    LeadingSpaceOfRun(w1, m);
    assert s[|w1|] == '/';
    assert s[|w1| + 1..] == w2 + b;
    LeadingSpaceOfRun(w2, b);
    assert (w2 + b)[|w2|..] == b;
    assert AfterMatch(s) == b;
    TightenMatch(s);
  }

  /** The slash rewrite, match by match: text, whitespace runs of any
      length around a slash, more text. */
  lemma TightenBetween(a: string, w1: string, w2: string, b: string)
    requires a == "" || (!IsSpace(a[|a| - 1]) && a[|a| - 1] != '/')
    requires AllSpace(w1) && AllSpace(w2) && (b == "" || !IsSpace(b[0]))
    ensures TightenSlashes(a + w1 + "/" + w2 + b) == TightenSlashes(a) + "/" + TightenSlashes(b)
  {
    AppendAssoc(a, w1, "/");
    AppendAssoc(a, w1 + "/", w2);
    AppendAssoc(a, w1 + "/" + w2, b);
    TightenAppend(a, w1 + "/" + w2 + b);
    TightenAroundSlash(w1, w2, b);
    AppendAssoc(TightenSlashes(a), "/", TightenSlashes(b));
  }

  /** The last character of the text survives the slash rewrite when it is
      neither whitespace nor a slash. */
  lemma {:induction false} TightenLast(s: string)
    requires s != "" && !IsSpace(s[|s| - 1]) && s[|s| - 1] != '/'
    ensures var r := TightenSlashes(s); r != "" && r[|r| - 1] == s[|s| - 1]
    decreases |s|
  {
    var rest, head := TightenStep(s);
    if rest != "" {
      TightenLast(rest);
    }
  }

  /** One step of the scan over text whose last character is neither
      whitespace nor a slash: a match or one kept character, then the rest,
      which ends in the same character. */
  lemma TightenStep(s: string) returns (rest: string, head: char)
    requires s != "" && !IsSpace(s[|s| - 1]) && s[|s| - 1] != '/'
    ensures |rest| < |s| && TightenSlashes(s) == [head] + TightenSlashes(rest)
    ensures rest == "" ==> head == s[|s| - 1]
    ensures rest != "" ==> rest[|rest| - 1] == s[|s| - 1]
  {
    if SlashAhead(s) {
      MatchInAppend(s, "");
      assert s + "" == s;
      rest := AfterMatch(s);
      head := '/';
      TightenMatch(s);
    } else {
      rest := s[1..];
      head := s[0];
      assert rest != "" ==> rest[|rest| - 1] == s[|s| - 1];
      TightenKeep(s);
    }
  }

  /** Whitespace runs never cross a point just after a non-whitespace
      character, so the space collapse works on each side separately. */
  lemma {:induction false} CollapseAppend(a: string, b: string)
    requires a == "" || !IsSpace(a[|a| - 1])
    ensures CollapseSpaces(a + b) == CollapseSpaces(a) + CollapseSpaces(b)
    decreases |a|
  {
    if a == "" {
      assert a + b == b;
    } else {
      assert (a + b)[0] == a[0];
      if IsSpace(a[0]) {
        LeadingSpaceAppend(a, b);
        var k := LeadingSpace(a);
        var rest := a[k..];
        assert (a + b)[k..] == rest + b;
        assert rest[|rest| - 1] == a[|a| - 1];
        CollapseRunStep(a);
        CollapseRunStep(a + b);
        CollapseAppend(rest, b);
        AppendAssoc(" ", CollapseSpaces(rest), CollapseSpaces(b));
      } else {
        var rest := a[1..];
        assert (a + b)[1..] == rest + b;
        assert rest != "" ==> rest[|rest| - 1] == a[|a| - 1];
        CollapseKeep(a);
        CollapseKeep(a + b);
        CollapseAppend(rest, b);
        AppendAssoc([a[0]], CollapseSpaces(rest), CollapseSpaces(b));
      }
    }
  }

  /** A whitespace run of any length becomes exactly one space. */
  lemma CollapseRun(w: string, b: string)
    requires w != "" && AllSpace(w) && (b == "" || !IsSpace(b[0]))
    ensures CollapseSpaces(w + b) == " " + CollapseSpaces(b)
  {
    LeadingSpaceOfRun(w, b);
    assert (w + b)[0] == w[0];
    assert (w + b)[|w|..] == b;
    CollapseRunStep(w + b);
  }

  /** The space collapse, run by run: text, one whitespace run, more text. */
  lemma CollapseBetween(a: string, w: string, b: string)
    requires a == "" || !IsSpace(a[|a| - 1])
    requires w != "" && AllSpace(w) && (b == "" || !IsSpace(b[0]))
    ensures CollapseSpaces(a + w + b) == CollapseSpaces(a) + " " + CollapseSpaces(b)
  {
    AppendAssoc(a, w, b);
    CollapseAppend(a, w + b);
    CollapseRun(w, b);
    AppendAssoc(CollapseSpaces(a), " ", CollapseSpaces(b));
  }

  /** The first step distributes over concatenation. */
  lemma {:induction false} KeepAppend(a: string, b: string)
    ensures KeepQuantityChars(a + b) == KeepQuantityChars(a) + KeepQuantityChars(b)
    decreases |a|
  {
    if a == "" {
      assert a + b == b;
    } else {
      assert (a + b)[0] == a[0];
      assert (a + b)[1..] == a[1..] + b;
      KeepAppend(a[1..], b);
      var head := if IsQuantityChar(a[0]) then [a[0]] else "";
      AppendAssoc(head, KeepQuantityChars(a[1..]), KeepQuantityChars(b));
    }
  }

  /** A number typed with a whitespace run before more digits, neither side
      a slash, keeps one space there: the mixed-number form `1 1/2`. */
  lemma CleanQuantityKeepsGap(a: string, w: string, b: string)
    requires a != "" && (IsDigit(a[|a| - 1]) || a[|a| - 1] == '.')
    requires w != "" && AllSpace(w)
    requires b != "" && (IsDigit(b[0]) || b[0] == '.')
    ensures CleanQuantity(a + w + b) == CleanQuantity(a) + " " + CleanQuantity(b)
  {
    var ka, kb := KeepGap(a, w, b);
    var ta, tb := TightenGap(ka, w, kb);
    CollapseBetween(ta, w, tb);
  }

  /** The first step keeps a whitespace run and the number characters on
      either side of it. */
  lemma KeepGap(a: string, w: string, b: string) returns (ka: string, kb: string)
    requires a != "" && (IsDigit(a[|a| - 1]) || a[|a| - 1] == '.')
    requires AllSpace(w)
    requires b != "" && (IsDigit(b[0]) || b[0] == '.')
    ensures ka == KeepQuantityChars(a) && kb == KeepQuantityChars(b)
    ensures KeepQuantityChars(a + w + b) == ka + w + kb
    ensures ka != "" && ka[|ka| - 1] == a[|a| - 1]
    ensures kb != "" && kb[0] == b[0]
  {
    ka, kb := KeepQuantityChars(a), KeepQuantityChars(b);
    KeepAppend(a + w, b);
    KeepAppend(a, w);
    assert forall i :: 0 <= i < |w| ==> IsQuantityChar(w[i]);
    KeepAllowed(w);
    var c := a[|a| - 1];
    assert a == a[..|a| - 1] + [c];
    KeepAppend(a[..|a| - 1], [c]);
    KeepOne(c);
    assert b == [b[0]] + b[1..];
    KeepAppend([b[0]], b[1..]);
    KeepOne(b[0]);
  }

  lemma KeepOne(c: char)
    requires IsQuantityChar(c)
    ensures KeepQuantityChars([c]) == [c]
  {
    assert [c][1..] == "";
  }

  /** The slash rewrite keeps a whitespace run between two characters that
      are neither whitespace nor slashes. */
  lemma TightenGap(a: string, w: string, b: string) returns (ta: string, tb: string)
    requires a != "" && !IsSpace(a[|a| - 1]) && a[|a| - 1] != '/'
    requires AllSpace(w)
    requires b != "" && !IsSpace(b[0]) && b[0] != '/'
    ensures ta == TightenSlashes(a) && tb == TightenSlashes(b)
    ensures TightenSlashes(a + w + b) == ta + w + tb
    ensures ta != "" && ta[|ta| - 1] == a[|a| - 1]
    ensures tb != "" && tb[0] == b[0]
  {
    ta, tb := TightenSlashes(a), TightenSlashes(b);
    AppendAssoc(a, w, b);
    TightenAppend(a, w + b);
    TightenKeepsSpaces(w, b);
    AppendAssoc(ta, w, tb);
    TightenLast(a);
    assert LeadingSpace(b) == 0;
    TightenKeep(b);
  }

  /** `1`, two spaces and `1/2` are stored as `1 1/2`. */
  lemma MixedNumberExample()
    ensures CleanQuantity("1" + "  " + "1/2") == "1 1/2"
  {
    CleanQuantityKeepsGap("1", "  ", "1/2");
    OneClean();
    HalfClean();
  }

  lemma OneClean()
    ensures CleanQuantity("1") == "1"
  {
    var q := "1";
    assert q[0] == '1' && |q| == 1;
    CleanQuantityOfClean(q);
  }

  lemma HalfClean()
    ensures CleanQuantity("1/2") == "1/2"
  {
    var q := "1/2";
    assert q[0] == '1' && q[1] == '/' && q[2] == '2' && |q| == 3;
    CleanQuantityOfClean(q);
  }
}
