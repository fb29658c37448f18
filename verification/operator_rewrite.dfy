/** The comparison-operator rewrite of the query filter: in the serialised
    filter, every whole-word `gte`, `lte`, `gt` or `lt` gets a `$` in front.

    `Rewrite` follows the regular expression `/\b(gte|lte|gt|lt)\b/g` the
    way a JavaScript engine runs it (alternatives tried in order, scanning
    resumes after each match). `Marked` states the intended effect one
    position at a time. `RewriteIsMarked` shows the two agree. */
module OperatorRewrite {
  import opened Common

  /** `\w` without the `u` flag: ASCII letters, digits and underscore. */
  predicate IsWordChar(c: char)
  {
    'a' <= c <= 'z' || 'A' <= c <= 'Z' || '0' <= c <= '9' || c == '_'
  }

  /** `\b` at position i: exactly one of the characters on either side of
      i is a word character (outside the string counts as non-word). */
  predicate WordBoundary(s: string, i: int)
    requires 0 <= i <= |s|
  {
    (i > 0 && IsWordChar(s[i - 1])) != (i < |s| && IsWordChar(s[i]))
  }

  /** The alternatives of the pattern, in the order the engine tries them. */
  const Alternatives: seq<string> := ["gte", "lte", "gt", "lt"]

  /** The first alternative `alt` in alts for which `\b(alt)\b` matches at i. */
  function FirstAlternative(s: string, i: nat, alts: seq<string>): (r: Option<string>)
    requires i <= |s|
    ensures r.Some? ==> r.value in alts && i + |r.value| <= |s| && s[i..i + |r.value|] == r.value
    ensures r.Some? ==> WordBoundary(s, i) && WordBoundary(s, i + |r.value|)
  {
    if |alts| == 0 then None
    else if i + |alts[0]| <= |s| && WordBoundary(s, i) && s[i..i + |alts[0]|] == alts[0]
            && WordBoundary(s, i + |alts[0]|)
    then Some(alts[0])
    else FirstAlternative(s, i, alts[1..])
  }

  /** The match the engine finds when it tries position i, if any. */
  function MatchAt(s: string, i: nat): Option<string>
    requires i <= |s|
  {
    FirstAlternative(s, i, Alternatives)
  }

  /** `s.replace(/\b(gte|lte|gt|lt)\b/g, (match) => "$" + match)`. */
  function Rewrite(s: string): string
  {
    RewriteFrom(s, 0)
  }

  /** The scan from position i onwards. */
  function RewriteFrom(s: string, i: nat): string
    requires i <= |s|
    decreases |s| - i
  {
    if i == |s| then ""
    else match MatchAt(s, i)
      case Some(op) =>
        assert |op| >= 2 by { assert op in Alternatives; }
        "$" + op + RewriteFrom(s, i + |op|)
      case None => [s[i]] + RewriteFrom(s, i + 1)
  }

  /** The length of the whole-word operator starting at i (3 for `gte` and
      `lte`, 2 for `gt` and `lt`), or 0 when none starts there. Whole word:
      no word character right before it and none right after it. */
  function OperatorLengthAt(s: string, i: nat): nat
    requires i <= |s|
  {
    if i + 1 < |s| && (i == 0 || !IsWordChar(s[i - 1])) && (s[i] == 'g' || s[i] == 'l') && s[i + 1] == 't' then
      if i + 2 < |s| && s[i + 2] == 'e' && (i + 3 == |s| || !IsWordChar(s[i + 3])) then 3
      else if i + 2 == |s| || !IsWordChar(s[i + 2]) then 2
      else 0
    else 0
  }

  predicate OperatorAt(s: string, i: nat)
    requires i <= |s|
  {
    OperatorLengthAt(s, i) > 0
  }

  /** The intended result from position i on: a `$` before every position
      where a whole-word operator starts, and every character of s kept in
      order. */
  function Marked(s: string, i: nat): string
    requires i <= |s|
    decreases |s| - i
  {
    if i == |s| then ""
    else (if OperatorAt(s, i) then "$" else "") + [s[i]] + Marked(s, i + 1)
  }

  /** Whatever the engine matches is a whole-word operator of that length. */
  lemma MatchIsOperator(s: string, i: nat)
    requires i <= |s|
    requires MatchAt(s, i).Some?
    ensures OperatorLengthAt(s, i) == |MatchAt(s, i).value|
  {
  }

  /** Wherever a whole-word operator starts, the engine matches it. */
  lemma OperatorIsMatched(s: string, i: nat)
    requires i <= |s|
    requires OperatorAt(s, i)
    ensures MatchAt(s, i).Some?
  {
    var n := OperatorLengthAt(s, i);
    assert Alternatives[1..] == ["lte", "gt", "lt"];
    assert ["lte", "gt", "lt"][1..] == ["gt", "lt"];
    assert ["gt", "lt"][1..] == ["lt"];
    if n == 3 {
      assert s[i..i + 3] == [s[i], s[i + 1], s[i + 2]];
      if s[i] == 'g' {
        assert s[i..i + 3] == "gte";
      } else {
        assert s[i..i + 3] == "lte";
        assert MatchAt(s, i) == FirstAlternative(s, i, ["lte", "gt", "lt"]);
      }
    } else {
      assert s[i..i + 2] == [s[i], s[i + 1]];
      if i + 3 <= |s| {
        assert s[i..i + 3] == [s[i], s[i + 1], s[i + 2]];
        assert s[i + 2] != 'e';
      }
      assert MatchAt(s, i) == FirstAlternative(s, i, ["lte", "gt", "lt"]);
      assert MatchAt(s, i) == FirstAlternative(s, i, ["gt", "lt"]);
      if s[i] == 'g' {
        assert s[i..i + 2] == "gt";
      } else {
        assert s[i..i + 2] == "lt";
        assert MatchAt(s, i) == FirstAlternative(s, i, ["lt"]);
      }
    }
  }

  /** The engine finds a match at i exactly where a whole-word operator
      starts, and the match has that operator's length. */
  lemma MatchAtIsOperator(s: string, i: nat)
    requires i <= |s|
    ensures MatchAt(s, i).Some? <==> OperatorAt(s, i)
    ensures MatchAt(s, i).Some? ==> |MatchAt(s, i).value| == OperatorLengthAt(s, i)
  {
    if OperatorAt(s, i) {
      OperatorIsMatched(s, i);
    }
    if MatchAt(s, i).Some? {
      MatchIsOperator(s, i);
    }
  }

  /** No operator starts strictly inside another one: the character before
      such a position is a word character. */
  lemma NoOperatorInside(s: string, i: nat, j: nat)
    requires i <= |s|
    requires i < j < i + OperatorLengthAt(s, i) <= |s|
    ensures !OperatorAt(s, j)
  {
  }

  /** Across a stretch with no operator start, `Marked` copies the text. */
  lemma {:induction false} MarkedCopies(s: string, i: nat, k: nat)
    requires i <= k <= |s|
    requires forall j :: i <= j < k ==> !OperatorAt(s, j)
    ensures Marked(s, i) == s[i..k] + Marked(s, k)
    decreases k - i
  {
    if i < k {
      MarkedCopies(s, i + 1, k);
      assert Marked(s, i) == [s[i]] + Marked(s, i + 1);
      assert s[i..k] == [s[i]] + s[i + 1..k];
    }
  }

  /** One match step: the `$` and the matched operator are what `Marked`
      produces up to the end of the operator. */
  lemma MatchStepIsMarked(s: string, i: nat)
    requires i < |s| && MatchAt(s, i).Some?
    ensures i + |MatchAt(s, i).value| <= |s|
    ensures "$" + MatchAt(s, i).value + Marked(s, i + |MatchAt(s, i).value|) == Marked(s, i)
  {
    MatchAtIsOperator(s, i);
    var op := MatchAt(s, i).value;
    var n := |op|;
    forall j | i + 1 <= j < i + n
      ensures !OperatorAt(s, j)
    {
      NoOperatorInside(s, i, j);
    }
    MarkedCopies(s, i + 1, i + n);
    assert Marked(s, i) == "$" + [s[i]] + Marked(s, i + 1);
    assert op == s[i..i + n] == [s[i]] + s[i + 1..i + n];
  }

  lemma {:induction false} RewriteFromIsMarked(s: string, i: nat)
    requires i <= |s|
    ensures RewriteFrom(s, i) == Marked(s, i)
    decreases |s| - i
  {
    if i < |s| {
      MatchAtIsOperator(s, i);
      match MatchAt(s, i)
      case Some(op) =>
        MatchStepIsMarked(s, i);
        RewriteFromIsMarked(s, i + |op|);
      case None =>
        RewriteFromIsMarked(s, i + 1);
    }
  }

  /** The regular-expression replacement inserts exactly one `$` before each
      whole-word `gte`, `lte`, `gt` or `lt` and changes nothing else. */
  lemma RewriteIsMarked(s: string)
    ensures Rewrite(s) == Marked(s, 0)
  {
    RewriteFromIsMarked(s, 0);
  }

  /** s with every `$` removed. */
  function DropDollars(s: string): (r: string)
    ensures '$' !in r
  {
    if |s| == 0 then "" else (if s[0] == '$' then "" else [s[0]]) + DropDollars(s[1..])
  }

  lemma {:induction false} DropDollarsConcat(a: string, b: string)
    ensures DropDollars(a + b) == DropDollars(a) + DropDollars(b)
    decreases |a|
  {
    if |a| > 0 {
      DropDollarsConcat(a[1..], b);
      var h := if a[0] == '$' then "" else [a[0]];
      assert (a + b)[0] == a[0];
      assert (a + b)[1..] == a[1..] + b;
      assert DropDollars(a + b) == h + DropDollars(a[1..] + b);
      assert DropDollars(a) == h + DropDollars(a[1..]);
    } else {
      assert a + b == b;
    }
  }

  lemma {:induction false} MarkedDropDollars(s: string, i: nat)
    requires i <= |s|
    ensures DropDollars(Marked(s, i)) == DropDollars(s[i..])
    decreases |s| - i
  {
    if i < |s| {
      MarkedDropDollars(s, i + 1);
      var head := (if OperatorAt(s, i) then "$" else "") + [s[i]];
      DropDollarsConcat(head, Marked(s, i + 1));
      DropDollarsConcat([s[i]], s[i + 1..]);
      assert s[i..] == [s[i]] + s[i + 1..];
      if OperatorAt(s, i) {
        DropDollarsConcat("$", [s[i]]);
      }
    }
  }

  /** Removing the dollar signs undoes the rewrite: the only characters it
      adds are `$`, and it keeps every character of the input in order. */
  lemma RewriteOnlyAddsDollars(s: string)
    ensures DropDollars(Rewrite(s)) == DropDollars(s)
    ensures |Rewrite(s)| >= |s|
  {
    RewriteIsMarked(s);
    MarkedDropDollars(s, 0);
    MarkedLength(s, 0);
  }

  lemma {:induction false} MarkedLength(s: string, i: nat)
    requires i <= |s|
    ensures |Marked(s, i)| >= |s| - i
    decreases |s| - i
  {
    if i < |s| {
      MarkedLength(s, i + 1);
    }
  }

  /** A text with no whole-word operator comes back unchanged. */
  lemma RewriteKeepsPlainText(s: string)
    requires forall i :: 0 <= i < |s| ==> !OperatorAt(s, i)
    ensures Rewrite(s) == s
  {
    RewriteIsMarked(s);
    MarkedCopies(s, 0, |s|);
    assert s[0..|s|] == s;
  }

  /** The rewrite of a text cut where at least one side of the cut is a
      non-word character is the rewrite of the two pieces, joined. */
  predicate Separated(a: string, b: string)
  {
    (|a| > 0 && !IsWordChar(a[|a| - 1])) || (|b| > 0 && !IsWordChar(b[0]))
  }

  /** Past the cut, operators of a + b are those of b. */
  lemma OperatorShift(a: string, b: string, j: nat)
    requires Separated(a, b)
    requires j < |b|
    ensures OperatorAt(a + b, |a| + j) == OperatorAt(b, j)
  {
  }

  /** Before the cut, operators of a + b are those of a. */
  lemma OperatorKeep(a: string, b: string, i: nat)
    requires Separated(a, b)
    requires i < |a|
    ensures OperatorAt(a + b, i) == OperatorAt(a, i)
  {
  }

  lemma {:induction false} MarkedSuffix(a: string, b: string, j: nat)
    requires Separated(a, b)
    requires j <= |b|
    ensures Marked(a + b, |a| + j) == Marked(b, j)
    decreases |b| - j
  {
    if j < |b| {
      MarkedSuffix(a, b, j + 1);
      OperatorShift(a, b, j);
      assert (a + b)[|a| + j] == b[j];
    }
  }

  lemma {:induction false} MarkedPrefix(a: string, b: string, i: nat)
    requires Separated(a, b)
    requires i <= |a|
    ensures Marked(a + b, i) == Marked(a, i) + Marked(b, 0)
    decreases |a| - i
  {
    if i == |a| {
      MarkedSuffix(a, b, 0);
    } else {
      MarkedPrefix(a, b, i + 1);
      OperatorKeep(a, b, i);
      assert (a + b)[i] == a[i];
    }
  }

  lemma RewriteConcat(a: string, b: string)
    requires Separated(a, b)
    ensures Rewrite(a + b) == Rewrite(a) + Rewrite(b)
  {
    RewriteIsMarked(a + b);
    RewriteIsMarked(a);
    RewriteIsMarked(b);
    MarkedPrefix(a, b, 0);
  }

  /** An operator name on its own gets its `$`. */
  lemma OperatorWordAlone(w: string)
    requires w in Alternatives
    ensures Rewrite(w) == "$" + w
  {
  }

  /** Operators embedded in longer words are left alone. */
  lemma RewriteLeavesEmbeddedWords()
    ensures Rewrite("agte") == "agte"
    ensures Rewrite("gte_x") == "gte_x"
    ensures Rewrite("ltd") == "ltd"
  {
    RewriteKeepsPlainText("agte");
    RewriteKeepsPlainText("gte_x");
    RewriteKeepsPlainText("ltd");
  }
}
