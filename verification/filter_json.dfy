/** Parsed query-string values and their JSON text.

    The query parser turns `price[gte]=5&name=Rex` into nested objects of
    strings. The filter step serialises such an object with
    `JSON.stringify`, rewrites operators in the text and parses it back.
    `RewriteIsStructural` shows what that text rewrite means for the
    object: every key and every string value is rewritten on its own. */
module FilterJson {
  import opened Common
  import opened OperatorRewrite

  /** A query-string value: a string, or an object whose entries keep the
      order in which they were parsed. */
  datatype QValue = QStr(text: string) | QObj(entries: seq<Entry>)
  datatype Entry = Entry(key: string, val: QValue)

  /** Characters `JSON.stringify` writes as they are (no escape sequence). */
  predicate PlainChar(c: char)
  {
    c != '"' && c != '\\' && c >= ' '
  }

  predicate PlainString(s: string)
  {
    forall i :: 0 <= i < |s| ==> PlainChar(s[i])
  }

  /** Every key and string inside v needs no escaping. */
  predicate PlainValue(v: QValue)
    decreases v
  {
    match v
    case QStr(t) => PlainString(t)
    case QObj(es) => PlainEntries(es)
  }

  predicate PlainEntries(es: seq<Entry>)
    decreases es
  {
    |es| == 0 || (PlainString(es[0].key) && PlainValue(es[0].val) && PlainEntries(es[1..]))
  }

  /** `JSON.stringify(v)` for values that need no escaping. */
  function Stringify(v: QValue): string
    decreases v
  {
    match v
    case QStr(t) => "\"" + t + "\""
    case QObj(es) => "{" + StringifyEntries(es) + "}"
  }

  function StringifyEntries(es: seq<Entry>): string
    decreases es
  {
    if |es| == 0 then ""
    else if |es| == 1 then StringifyEntry(es[0])
    else StringifyEntry(es[0]) + "," + StringifyEntries(es[1..])
  }

  function StringifyEntry(e: Entry): string
    decreases e
  {
    "\"" + e.key + "\":" + Stringify(e.val)
  }

  /** The object with the operator rewrite applied to each key and each
      string value separately. */
  function RenameValue(v: QValue): (r: QValue)
    decreases v
    ensures r.QStr? <==> v.QStr?
  {
    match v
    case QStr(t) => QStr(Rewrite(t))
    case QObj(es) => QObj(RenameEntries(es))
  }

  function RenameEntries(es: seq<Entry>): (r: seq<Entry>)
    decreases es
    ensures |r| == |es|
  {
    if |es| == 0 then []
    else [Entry(Rewrite(es[0].key), RenameValue(es[0].val))] + RenameEntries(es[1..])
  }

  /** A piece of JSON punctuation: at least one character, none of them
      a word character. */
  predicate Punctuation(d: string)
  {
    |d| > 0 && forall i :: 0 <= i < |d| ==> !IsWordChar(d[i])
  }

  /** Punctuation is not touched by the rewrite. */
  lemma PunctuationUnchanged(d: string)
    requires Punctuation(d)
    ensures Rewrite(d) == d
  {
    RewriteKeepsPlainText(d);
  }

  /** Rewriting "d1 + s + d2", between two pieces of punctuation, rewrites
      s alone. */
  lemma RewriteBetween(d1: string, s: string, d2: string)
    requires Punctuation(d1) && Punctuation(d2)
    ensures Rewrite(d1 + s + d2) == d1 + Rewrite(s) + d2
  {
    PunctuationUnchanged(d1);
    PunctuationUnchanged(d2);
    assert (d1 + s + d2)[|d1 + s|] == d2[0];
    RewriteConcat(d1 + s, d2);
    RewriteConcat(d1, s);
  }

  /** The JSON text of a value starts and ends with punctuation. */
  lemma StringifyEnds(v: QValue)
    ensures |Stringify(v)| >= 2
    ensures !IsWordChar(Stringify(v)[0]) && !IsWordChar(Stringify(v)[|Stringify(v)| - 1])
  {
  }

  /** Rewriting the JSON text of a value is the same as rewriting each key
      and each string value and then writing the JSON text: the quotes,
      colons, commas and braces around them are word boundaries. */
  lemma {:induction false} RewriteIsStructural(v: QValue)
    requires PlainValue(v)
    ensures Rewrite(Stringify(v)) == Stringify(RenameValue(v))
    decreases v
  {
    match v
    case QStr(t) =>
      RewriteBetween("\"", t, "\"");
    case QObj(es) =>
      RewriteEntriesIsStructural(es);
      RewriteBetween("{", StringifyEntries(es), "}");
  }

  lemma {:induction false} RewriteEntryIsStructural(e: Entry)
    requires PlainString(e.key) && PlainValue(e.val)
    ensures Rewrite(StringifyEntry(e)) == StringifyEntry(Entry(Rewrite(e.key), RenameValue(e.val)))
    decreases e
  {
    RewriteIsStructural(e.val);
    var sv := Stringify(e.val);
    StringifyEnds(e.val);
    RewriteBetween("\"", e.key, "\":");
    var head := "\"" + e.key + "\":";
    assert head[|head| - 1] == ':';
    RewriteConcat(head, sv);
  }

  lemma {:induction false} RewriteEntriesIsStructural(es: seq<Entry>)
    requires PlainEntries(es)
    ensures Rewrite(StringifyEntries(es)) == StringifyEntries(RenameEntries(es))
    decreases es
  {
    if |es| > 1 {
      var renamed := RenameEntries(es);
      assert renamed[0] == Entry(Rewrite(es[0].key), RenameValue(es[0].val));
      assert renamed[1..] == RenameEntries(es[1..]);
      var first := StringifyEntry(es[0]);
      var rest := StringifyEntries(es[1..]);
      RewriteEntryIsStructural(es[0]);
      RewriteEntriesIsStructural(es[1..]);
      RewriteAfterComma(first, rest, es[0].val);
    } else if |es| == 1 {
      RewriteEntryIsStructural(es[0]);
    }
  }

  /** One entry's text, a comma, and the remaining entries' text. */
  lemma RewriteAfterComma(first: string, rest: string, v: QValue)
    requires |first| > 0 && first[|first| - 1] == Stringify(v)[|Stringify(v)| - 1]
    ensures Rewrite(first + "," + rest) == Rewrite(first) + "," + Rewrite(rest)
  {
    StringifyEnds(v);
    assert first + "," + rest == first + ("," + rest);
    assert ("," + rest)[0] == ',';
    RewriteConcat(first, "," + rest);
    RewriteConcat(",", rest);
    PunctuationUnchanged(",");
  }

  /** The example from the query-feature documentation: `price[gte]=5`
      becomes the filter `{"price":{"$gte":"5"}}`. */
  lemma PriceExample(v: QValue)
    requires v == QObj([Entry("price", QObj([Entry("gte", QStr("5"))]))])
    ensures Rewrite(Stringify(v)) == "{\"price\":{\"$gte\":\"5\"}}"
  {
    PriceStructural(v);
    PriceText(v);
  }

  lemma PriceStructural(v: QValue)
    requires v == QObj([Entry("price", QObj([Entry("gte", QStr("5"))]))])
    ensures Rewrite(Stringify(v)) == Stringify(RenameValue(v))
  {
    var inner := [Entry("gte", QStr("5"))];
    var outer := [Entry("price", QObj(inner))];
    assert PlainString("gte") && PlainString("5") && PlainString("price");
    assert inner[1..] == [] && outer[1..] == [];
    RewriteIsStructural(v);
  }

  lemma PriceText(v: QValue)
    requires v == QObj([Entry("price", QObj([Entry("gte", QStr("5"))]))])
    ensures Stringify(RenameValue(v)) == "{\"price\":{\"$gte\":\"5\"}}"
  {
    PriceRenamed();
    PriceRenamedText(RenameValue(v));
  }

  lemma PriceRenamed()
    ensures RenameValue(QObj([Entry("price", QObj([Entry("gte", QStr("5"))]))]))
      == QObj([Entry("price", QObj([Entry("$gte", QStr("5"))]))])
  {
    KeepsWord("price");
    KeepsWord("5");
    OperatorWordAlone("gte");
    assert "$" + "gte" == "$gte";
    RenameSingleEntry("gte", QStr("5"));
    RenameSingleEntry("price", QObj([Entry("gte", QStr("5"))]));
  }

  lemma PriceRenamedText(r: QValue)
    requires r == QObj([Entry("price", QObj([Entry("$gte", QStr("5"))]))])
    ensures Stringify(r) == "{\"price\":{\"$gte\":\"5\"}}"
  {
  }

  /** A word that does not start with `g` or `l` is not an operator. */
  lemma KeepsWord(w: string)
    requires forall i :: 0 <= i < |w| ==> IsWordChar(w[i])
    requires |w| > 0 && w[0] != 'g' && w[0] != 'l'
    ensures Rewrite(w) == w
  {
    forall i | 0 <= i < |w|
      ensures !OperatorAt(w, i)
    {
    }
    RewriteKeepsPlainText(w);
  }

  /** Renaming an object with one entry renames its key and its value. */
  lemma RenameSingleEntry(k: string, v: QValue)
    ensures RenameValue(QObj([Entry(k, v)])) == QObj([Entry(Rewrite(k), RenameValue(v))])
  {
  }

  /** Because the rewrite works on the whole text, a string VALUE that is
      an operator word is rewritten too: `status=gt` filters on "$gt". */
  lemma ValuesAreRewrittenToo(v: QValue)
    requires v == QObj([Entry("status", QStr("gt"))])
    ensures Rewrite(Stringify(v)) == "{\"status\":\"$gt\"}"
  {
    StatusStructural(v);
    StatusText(v);
  }

  lemma StatusStructural(v: QValue)
    requires v == QObj([Entry("status", QStr("gt"))])
    ensures Rewrite(Stringify(v)) == Stringify(RenameValue(v))
  {
    var es := [Entry("status", QStr("gt"))];
    assert PlainString("status") && PlainString("gt");
    assert es[1..] == [];
    RewriteIsStructural(v);
  }

  lemma StatusText(v: QValue)
    requires v == QObj([Entry("status", QStr("gt"))])
    ensures Stringify(RenameValue(v)) == "{\"status\":\"$gt\"}"
  {
    StatusRenamed();
    StatusRenamedText(RenameValue(v));
  }

  lemma StatusRenamed()
    ensures RenameValue(QObj([Entry("status", QStr("gt"))])) == QObj([Entry("status", QStr("$gt"))])
  {
    KeepsWord("status");
    OperatorWordAlone("gt");
    assert "$" + "gt" == "$gt";
    RenameSingleEntry("status", QStr("gt"));
  }

  lemma StatusRenamedText(r: QValue)
    requires r == QObj([Entry("status", QStr("$gt"))])
    ensures Stringify(r) == "{\"status\":\"$gt\"}"
  {
  }
}
