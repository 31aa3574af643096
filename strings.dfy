/**
 * The String extensions of extensions/string.ts: identifier case conversion
 * between snake_case and PascalCase, `startsWith`, and the first-occurrence
 * search and replace the rest of the library relies on.
 * Only the ASCII letters change case; every other character is kept.
 */
module Strings {

  predicate IsUpper(c: char) { 'A' <= c <= 'Z' }

  predicate IsLower(c: char) { 'a' <= c <= 'z' }

  predicate IsDigit(c: char) { '0' <= c <= '9' }

  /** The regular-expression class `\w`. */
  predicate IsWordChar(c: char) { IsUpper(c) || IsLower(c) || IsDigit(c) || c == '_' }

  function ToUpper(c: char): (u: char)
    ensures IsLower(c) ==> IsUpper(u) && ToLower(u) == c
    ensures !IsLower(c) ==> u == c
  {
    if IsLower(c) then (c as int - 32) as char else c
  }

  function ToLower(c: char): (l: char)
    ensures IsUpper(c) ==> IsLower(l)
    ensures !IsUpper(c) ==> l == c
  {
    if IsUpper(c) then (c as int + 32) as char else c
  }

  function LowerAll(s: string): (r: string)
    ensures |r| == |s| && forall i :: 0 <= i < |s| ==> r[i] == ToLower(s[i])
  {
    seq(|s|, i requires 0 <= i < |s| => ToLower(s[i]))
  }

  // ---------------------------------------------------------------------------
  // snakeCaseToCamelCase: `replace(/_\w/g, m => m[1].toUpperCase())`, then the
  // first character upper-cased.

  /** Number of matches of `/_\w/g`, found left to right without overlap. */
  function MatchCount(s: string): (n: nat)
    ensures 2 * n <= |s|
  {
    if |s| >= 2 && s[0] == '_' && IsWordChar(s[1]) then 1 + MatchCount(s[2..])
    else if s == [] then 0
    else MatchCount(s[1..])
  }

  /** `s.replace(/_\w/g, m => m[1].toUpperCase())` */
  function ReplaceUnderscores(s: string): (r: string)
    ensures |r| == |s| - MatchCount(s)
  {
    if |s| >= 2 && s[0] == '_' && IsWordChar(s[1]) then [ToUpper(s[1])] + ReplaceUnderscores(s[2..])
    else if s == [] then []
    else [s[0]] + ReplaceUnderscores(s[1..])
  }

  /**
   * String.prototype.snakeCaseToCamelCase. The empty string is outside its
   * domain: `str[0]` is undefined there and the call throws.
   */
  function SnakeCaseToCamelCase(s: string): (r: string)
    requires s != ""
    ensures |r| == |s| - MatchCount(s)
    ensures !IsLower(r[0])
  {
    var t := ReplaceUnderscores(s);
    [ToUpper(t[0])] + t[1..]
  }

  // ---------------------------------------------------------------------------
  // camelCaseToSnakeCase: `replace(/\.?([A-Z]+)/g, (x, y) => "_" + y.toLowerCase())`,
  // then `replace(/^_/, "")`.

  /** Length of the run of capitals `s` starts with. */
  function UpperRun(s: string): (n: nat)
    ensures n <= |s|
    ensures forall i :: 0 <= i < n ==> IsUpper(s[i])
    ensures n < |s| ==> !IsUpper(s[n])
  {
    if s != [] && IsUpper(s[0]) then 1 + UpperRun(s[1..]) else 0
  }

  /**
   * `s.replace(/\.?([A-Z]+)/g, (x, y) => "_" + y.toLowerCase())`: every maximal
   * run of capitals, with one dot immediately before it, becomes `_` and the
   * lower-cased run.
   */
  function ReplaceCapitals(s: string): (r: string)
    ensures forall i :: 0 <= i < |r| ==> !IsUpper(r[i])
    decreases |s|
  {
    if s == [] then []
    else if s[0] == '.' && |s| >= 2 && IsUpper(s[1]) then
      var n := UpperRun(s[1..]);
      "_" + LowerAll(s[1..1 + n]) + ReplaceCapitals(s[1 + n..])
    else if IsUpper(s[0]) then
      var n := UpperRun(s);
      "_" + LowerAll(s[..n]) + ReplaceCapitals(s[n..])
    else
      [s[0]] + ReplaceCapitals(s[1..])
  }

  /** String.prototype.camelCaseToSnakeCase: the result holds no ASCII capital. */
  function CamelCaseToSnakeCase(s: string): (r: string)
    ensures forall i :: 0 <= i < |r| ==> !IsUpper(r[i])
  {
    var t := ReplaceCapitals(s);
    if t != [] && t[0] == '_' then t[1..] else t
  }

  // ---------------------------------------------------------------------------
  // indexOf, startsWith and replace with a string pattern.

  /** `p` occurs in `s` at position `j`. */
  predicate OccursAt(s: string, p: string, j: int)
  {
    0 <= j && j + |p| <= |s| && s[j..j + |p|] == p
  }

  /** `s.indexOf(p)`: the first position where `p` occurs, or -1. */
  function IndexOf(s: string, p: string): (i: int)
    ensures -1 <= i
    ensures 0 <= i ==> OccursAt(s, p, i) && forall j :: 0 <= j < i ==> !OccursAt(s, p, j)
    ensures i < 0 ==> forall j :: !OccursAt(s, p, j)
    decreases |s|
  {
    if |p| <= |s| && s[..|p|] == p then 0
    else if |s| <= |p| then -1
    else
      var i := IndexOf(s[1..], p);
      OccursAtTail(s, p);
      if i < 0 then -1 else i + 1
  }

  /** An occurrence past the first character is an occurrence in the tail, one position earlier. */
  lemma OccursAtTail(s: string, p: string)
    requires s != []
    ensures forall j :: 1 <= j ==> (OccursAt(s, p, j) <==> OccursAt(s[1..], p, j - 1))
  {
    forall j | 1 <= j ensures OccursAt(s, p, j) <==> OccursAt(s[1..], p, j - 1) {
      if j + |p| <= |s| {
        var here, there := s[j..j + |p|], s[1..][j - 1..j - 1 + |p|];
        forall m | 0 <= m < |p| ensures here[m] == there[m] {
          assert s[1..][j - 1 + m] == s[j + m];
        }
        assert here == there;
      }
    }
  }

  /** String.prototype.startsWith as the library defines it: `this.indexOf(s) === 0`. */
  predicate StartsWith(s: string, p: string)
  {
    IndexOf(s, p) == 0
  }

  /** `s.replace(p, r)` with a string pattern: only the first occurrence is replaced. */
  function ReplaceFirst(s: string, p: string, r: string): (t: string)
  {
    var i := IndexOf(s, p);
    if i < 0 then s else s[..i] + r + s[i + |p|..]
  }

  // ---------------------------------------------------------------------------
  // Properties.

  /** `startsWith(p)` holds exactly when `p` is a prefix, so always for the empty string. */
  lemma StartsWithIsPrefix(s: string, p: string)
    ensures StartsWith(s, p) <==> p <= s
    ensures StartsWith(s, "")
  {
    if p <= s {
      assert OccursAt(s, p, 0);
    }
    assert OccursAt(s, "", 0);
  }

  /** A pattern that does not occur leaves the string unchanged. */
  lemma ReplaceFirstAbsent(s: string, p: string, r: string)
    requires forall j :: !OccursAt(s, p, j)
    ensures ReplaceFirst(s, p, r) == s
  {
  }

  /**
   * Only the first occurrence is replaced: the text before it holds no
   * occurrence, and everything after it is kept as it was.
   */
  lemma ReplaceFirstOnlyFirst(s: string, p: string, r: string, i: nat)
    requires OccursAt(s, p, i)
    requires forall j :: 0 <= j < i ==> !OccursAt(s, p, j)
    ensures ReplaceFirst(s, p, r) == s[..i] + r + s[i + |p|..]
  {
  }

  /** snake_case identifiers: segments joined by single underscores. */
  predicate ValidSegment(w: string)
  {
    |w| >= 1 && IsLower(w[0]) && forall i :: 0 <= i < |w| ==> IsLower(w[i]) || IsDigit(w[i])
  }

  /**
   * The side condition of the round trip: every segment starts with a lower-case
   * letter and holds only lower-case letters and digits, and every segment but
   * the last has at least two characters.
   */
  predicate ValidSegments(ws: seq<string>)
  {
    && |ws| >= 1
    && (forall i :: 0 <= i < |ws| ==> ValidSegment(ws[i]))
    && (forall i :: 0 <= i < |ws| - 1 ==> |ws[i]| >= 2)
  }

  function JoinUnderscore(ws: seq<string>): string
    requires |ws| >= 1
  {
    if |ws| == 1 then ws[0] else ws[0] + "_" + JoinUnderscore(ws[1..])
  }

  function Capitalized(w: string): string
    requires |w| >= 1
  {
    [ToUpper(w[0])] + w[1..]
  }

  function CapitalizedJoin(ws: seq<string>): string
    requires forall i :: 0 <= i < |ws| ==> |ws[i]| >= 1
  {
    if ws == [] then "" else Capitalized(ws[0]) + CapitalizedJoin(ws[1..])
  }

  /** One step of `ReplaceUnderscores` over a character that is not `_`. */
  lemma ReplaceUnderscoresCons(c: char, t: string)
    requires c != '_'
    ensures ReplaceUnderscores([c] + t) == [c] + ReplaceUnderscores(t)
  {
    assert ([c] + t)[1..] == t;
  }

  /** One step of `ReplaceUnderscores` over a match of `/_\w/`. */
  lemma ReplaceUnderscoresMatch(c: char, t: string)
    requires IsWordChar(c)
    ensures ReplaceUnderscores(['_', c] + t) == [ToUpper(c)] + ReplaceUnderscores(t)
  {
    assert (['_', c] + t)[2..] == t;
  }

  lemma {:induction false} ReplaceUnderscoresPlain(a: string, b: string)
    requires forall i :: 0 <= i < |a| ==> a[i] != '_'
    ensures ReplaceUnderscores(a + b) == a + ReplaceUnderscores(b)
  {
    if a == [] {
      assert a + b == b;
    } else {
      ReplaceUnderscoresPlain(a[1..], b);
      ConcatAssoc([a[0]], a[1..], b);
      assert [a[0]] + a[1..] == a;
      ReplaceUnderscoresCons(a[0], a[1..] + b);
      ConcatAssoc([a[0]], a[1..], ReplaceUnderscores(b));
    }
  }

  /** What `ValidSegments` says about the first segment and the rest. */
  lemma ValidSegmentsSplit(ws: seq<string>)
    requires ValidSegments(ws)
    ensures ValidSegment(ws[0])
    ensures |ws| > 1 ==> |ws[0]| >= 2 && ValidSegments(ws[1..])
  {
    if |ws| > 1 {
      assert forall i :: 0 <= i < |ws| - 1 ==> ws[1..][i] == ws[i + 1];
    }
  }

  /** The join of several segments: the first, then `_` and the join of the rest. */
  lemma JoinHead(ws: seq<string>)
    requires |ws| > 1
    ensures "_" + JoinUnderscore(ws) == "_" + ws[0] + ("_" + JoinUnderscore(ws[1..]))
    ensures JoinUnderscore(ws) == ws[0] + ("_" + JoinUnderscore(ws[1..]))
  {
    var j := JoinUnderscore(ws[1..]);
    ConcatAssoc(ws[0], "_", j);
    ConcatAssoc("_", ws[0], "_" + j);
  }

  lemma ConcatAssoc(a: string, b: string, c: string)
    ensures a + b + c == a + (b + c)
  {
  }

  /** `_` and a segment become the segment capitalised. */
  lemma ReplaceUnderscoresOfSegment(w: string, rest: string, restCamel: string)
    requires ValidSegment(w)
    requires ReplaceUnderscores(rest) == restCamel
    ensures ReplaceUnderscores("_" + w + rest) == Capitalized(w) + restCamel
  {
    assert "_" + w + rest == ['_', w[0]] + (w[1..] + rest) by {
      assert "_" + w == ['_', w[0]] + w[1..];
      ConcatAssoc(['_', w[0]], w[1..], rest);
    }
    ReplaceUnderscoresMatch(w[0], w[1..] + rest);
    ReplaceUnderscoresPlain(w[1..], rest);
    ConcatAssoc([ToUpper(w[0])], w[1..], restCamel);
  }

  lemma {:induction false} ReplaceUnderscoresOfJoin(ws: seq<string>)
    requires ValidSegments(ws)
    ensures ReplaceUnderscores("_" + JoinUnderscore(ws)) == CapitalizedJoin(ws)
  {
    ValidSegmentsSplit(ws);
    var w := ws[0];
    if |ws| == 1 {
      ReplaceUnderscoresOfSegment(w, "", "");
      assert "_" + w + "" == "_" + JoinUnderscore(ws);
      assert CapitalizedJoin(ws) == Capitalized(w) + "";
    } else {
      ReplaceUnderscoresOfJoin(ws[1..]);
      ReplaceUnderscoresOfSegment(w, "_" + JoinUnderscore(ws[1..]), CapitalizedJoin(ws[1..]));
      JoinHead(ws);
    }
  }

  /** On a valid identifier, snakeCaseToCamelCase capitalises every segment and drops the underscores. */
  lemma {:induction false} SnakeToCamelOfJoin(ws: seq<string>)
    requires ValidSegments(ws)
    ensures SnakeCaseToCamelCase(JoinUnderscore(ws)) == CapitalizedJoin(ws)
  {
    ValidSegmentsSplit(ws);
    var w := ws[0];
    var rest := if |ws| == 1 then "" else "_" + JoinUnderscore(ws[1..]);
    var restCamel := CapitalizedJoin(ws[1..]);
    if |ws| > 1 {
      JoinHead(ws);
      ReplaceUnderscoresOfJoin(ws[1..]);
    } else {
      assert JoinUnderscore(ws) == w + rest;
    }
    ReplaceUnderscoresPlain(w, rest);
    assert ReplaceUnderscores(rest) == restCamel;
    assert CapitalizedJoin(ws) == Capitalized(w) + restCamel;
    CapitalizeConcat(w, restCamel);
  }

  /** Capitalising a concatenation capitalises its first part. */
  lemma CapitalizeConcat(w: string, r: string)
    requires |w| >= 1
    ensures var t := w + r; [ToUpper(t[0])] + t[1..] == Capitalized(w) + r
  {
    var t := w + r;
    assert t[1..] == w[1..] + r;
    ConcatAssoc([ToUpper(w[0])], w[1..], r);
  }

  /** One step of `ReplaceCapitals` over a character that is neither a capital nor `.`. */
  lemma ReplaceCapitalsCons(c: char, t: string)
    requires !IsUpper(c) && c != '.'
    ensures ReplaceCapitals([c] + t) == [c] + ReplaceCapitals(t)
  {
    assert ([c] + t)[1..] == t;
  }

  lemma {:induction false} ReplaceCapitalsPlain(a: string, b: string)
    requires forall i :: 0 <= i < |a| ==> !IsUpper(a[i]) && a[i] != '.'
    ensures ReplaceCapitals(a + b) == a + ReplaceCapitals(b)
  {
    if a == [] {
      assert a + b == b;
    } else {
      ReplaceCapitalsPlain(a[1..], b);
      ConcatAssoc([a[0]], a[1..], b);
      assert [a[0]] + a[1..] == a;
      ReplaceCapitalsCons(a[0], a[1..] + b);
      ConcatAssoc([a[0]], a[1..], ReplaceCapitals(b));
    }
  }

  /** A capitalised segment opens a run of exactly one capital, which becomes `_` and its initial. */
  lemma ReplaceCapitalsOfSegment(w: string, rest: string)
    requires |w| >= 1 && IsLower(w[0])
    requires |w| >= 2 ==> !IsUpper(w[1])
    requires |w| == 1 ==> rest == []
    ensures ReplaceCapitals(Capitalized(w) + rest) == "_" + [w[0]] + ReplaceCapitals(w[1..] + rest)
  {
    var s := Capitalized(w) + rest;
    assert s[0] == ToUpper(w[0]) && s[1..] == w[1..] + rest;
    if |w| >= 2 {
      assert s[1] == w[1];
    }
    assert UpperRun(s) == 1 + UpperRun(s[1..]);
    assert s[..1] == [ToUpper(w[0])];
    assert LowerAll(s[..1]) == [w[0]];
  }

  /** A capitalised segment becomes `_` and the segment. */
  lemma ReplaceCapitalsOfCapitalizedSegment(w: string, rest: string, restSnake: string)
    requires ValidSegment(w)
    requires |w| == 1 ==> rest == []
    requires ReplaceCapitals(rest) == restSnake
    ensures ReplaceCapitals(Capitalized(w) + rest) == "_" + w + restSnake
  {
    ReplaceCapitalsOfSegment(w, rest);
    ReplaceCapitalsPlain(w[1..], rest);
    UnderscoreHeadTail(w, restSnake);
  }

  lemma UnderscoreHeadTail(w: string, tail: string)
    requires |w| >= 1
    ensures "_" + [w[0]] + (w[1..] + tail) == "_" + w + tail
  {
    assert [w[0]] + w[1..] == w;
  }

  lemma {:induction false} ReplaceCapitalsOfCapitalized(ws: seq<string>)
    requires ValidSegments(ws)
    ensures ReplaceCapitals(CapitalizedJoin(ws)) == "_" + JoinUnderscore(ws)
  {
    ValidSegmentsSplit(ws);
    var w := ws[0];
    if |ws| == 1 {
      ReplaceCapitalsOfCapitalizedSegment(w, "", "");
      assert CapitalizedJoin(ws) == Capitalized(w) + "";
    } else {
      ReplaceCapitalsOfCapitalized(ws[1..]);
      ReplaceCapitalsOfCapitalizedSegment(w, CapitalizedJoin(ws[1..]), "_" + JoinUnderscore(ws[1..]));
      JoinHead(ws);
    }
  }

  /**
   * Round trip: on a snake_case identifier satisfying `ValidSegments`,
   * camelCaseToSnakeCase undoes snakeCaseToCamelCase.
   */
  lemma RoundTrip(ws: seq<string>)
    requires ValidSegments(ws)
    ensures CamelCaseToSnakeCase(SnakeCaseToCamelCase(JoinUnderscore(ws))) == JoinUnderscore(ws)
  {
    SnakeToCamelOfJoin(ws);
    ReplaceCapitalsOfCapitalized(ws);
  }

  /** The round trip fails without the side condition: a one-letter segment merges with the next. */
  lemma RoundTripFailsOnShortSegment()
    ensures SnakeCaseToCamelCase("a_b") == "AB"
    ensures CamelCaseToSnakeCase("AB") == "ab"
  {
    assert ReplaceUnderscores("a_b") == "aB" by {
      assert ReplaceUnderscores("_b") == "B";
    }
    assert UpperRun("AB") == 2;
    assert "AB"[..2] == "AB";
  }

  /** snakeCaseToCamelCase on the identifiers the library documents: `user_id` becomes `UserId`. */
  lemma SnakeToCamelExamples()
    ensures SnakeCaseToCamelCase("user_id") == "UserId"
    ensures SnakeCaseToCamelCase("_id") == "Id"
  {
    UserIdToCamel();
    assert ReplaceUnderscores("_id") == "Id" by {
      assert ReplaceUnderscores("d") == "d";
    }
  }

  lemma UserIdToCamel()
    ensures SnakeCaseToCamelCase("user_id") == "UserId"
  {
    SnakeToCamelOfJoin(["user", "id"]);
    assert JoinUnderscore(["user", "id"]) == "user_id";
    assert CapitalizedJoin(["user", "id"]) == "UserId";
  }

  /** camelCaseToSnakeCase on the library's documented identifier: `UserId` becomes `user_id`. */
  lemma CamelToSnakeExample()
    ensures CamelCaseToSnakeCase("UserId") == "user_id"
  {
    ReplaceCapitalsOfCapitalized(["user", "id"]);
    assert CapitalizedJoin(["user", "id"]) == "UserId";
    assert JoinUnderscore(["user", "id"]) == "user_id";
  }

  /** A run of capitals becomes a single segment: `ID` becomes `id`, not `i_d`. */
  lemma CapitalRunExamples()
    ensures CamelCaseToSnakeCase("ID") == "id"
    ensures CamelCaseToSnakeCase("UserID") == "user_id"
  {
    CapitalRun();
    UserCapitalRun();
  }

  lemma CapitalRun()
    ensures ReplaceCapitals("ID") == "_id"
  {
    var run := "ID";
    assert UpperRun(run) == 2 by {
      assert run[1..] == "D" && run[1..][1..] == "";
    }
    assert run[..2] == run && run[2..] == "";
    assert LowerAll(run) == "id";
  }

  lemma UserCapitalRun()
    ensures ReplaceCapitals("UserID") == "_user_id"
  {
    assert Capitalized("user") + "ID" == "UserID";
    ReplaceCapitalsOfSegment("user", "ID");
    assert "user"[1..] + "ID" == "ser" + "ID";
    ReplaceCapitalsPlain("ser", "ID");
    CapitalRun();
    assert "_" + ['u'] + ("ser" + "_id") == "_user_id";
  }
}
