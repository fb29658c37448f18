/** The query-feature pipeline: from the parsed query string of a list
    request to a query descriptor (filter, sort order, projection, skip and
    limit). Each step reads the original query string; the descriptor is
    the only thing that changes. Executing the descriptor against the
    database is not part of this module. */
module ApiFeatures {
  import opened Common
  import opened Errors
  import opened OperatorRewrite
  import opened FilterJson

  /** The query-string keys that steer the pipeline instead of filtering. */
  const ReservedKeys: set<string> := {"fields", "sort", "page", "limit"}

  /** The sort order and the projection used when none is asked for. */
  const DefaultFieldList := "-createdAt"

  const DefaultPage := 1
  const DefaultLimit := 10

  /** What has been attached to the database query so far; None means the
      step has not attached anything. The filter is the JSON text handed to
      `JSON.parse`. */
  datatype Query = Query(
    filter: Option<string>,
    sort: Option<string>,
    projection: Option<string>,
    skip: Option<int>,
    limit: Option<int>)

  const Unconstrained := Query(None, None, None, None, None)

  /** `queryStr[key]`: the value of the first entry with that key. */
  function Lookup(qs: seq<Entry>, key: string): (r: Option<QValue>)
    ensures r.Some? <==> exists i :: 0 <= i < |qs| && qs[i].key == key
    ensures r.Some? ==> Entry(key, r.value) in qs
  {
    if |qs| == 0 then None
    else if qs[0].key == key then Some(qs[0].val)
    else
      var r := Lookup(qs[1..], key);
      assert forall i :: 1 <= i < |qs| ==> qs[i] == qs[1..][i - 1];
      r
  }

  /** The copy of the query string with the four reserved keys deleted. */
  function StripReserved(qs: seq<Entry>): (r: seq<Entry>)
    ensures forall e :: e in r ==> e in qs && e.key !in ReservedKeys
    ensures forall k :: k !in ReservedKeys ==> Lookup(r, k) == Lookup(qs, k)
    ensures forall k :: k in ReservedKeys ==> Lookup(r, k).None?
  {
    if |qs| == 0 then []
    else
      var rest := StripReserved(qs[1..]);
      assert forall e :: e in qs[1..] ==> e in qs;
      if qs[0].key in ReservedKeys then rest
      else
        assert ([qs[0]] + rest)[1..] == rest;
        [qs[0]] + rest
  }

  /** Deleting keys keeps a query string free of characters JSON escapes. */
  lemma {:induction false} StripKeepsPlain(qs: seq<Entry>)
    requires PlainEntries(qs)
    ensures PlainEntries(StripReserved(qs))
    decreases |qs|
  {
    if |qs| > 0 {
      StripKeepsPlain(qs[1..]);
      var rest := StripReserved(qs[1..]);
      if qs[0].key !in ReservedKeys {
        assert StripReserved(qs) == [qs[0]] + rest;
        assert ([qs[0]] + rest)[1..] == rest;
      }
    }
  }

  /** `filter()`: serialise the non-reserved entries, put `$` before every
      whole-word comparison operator, and use the result as the filter. */
  function Filter(q: Query, qs: seq<Entry>): (r: Query)
    ensures r == q.(filter := r.filter) && r.filter.Some?
    ensures PlainEntries(qs) ==>
      r.filter == Some(Stringify(QObj(RenameEntries(StripReserved(qs)))))
  {
    FilterTextIsStructural(qs);
    q.(filter := Some(Rewrite(Stringify(QObj(StripReserved(qs))))))
  }

  lemma FilterTextIsStructural(qs: seq<Entry>)
    ensures PlainEntries(qs) ==>
      Rewrite(Stringify(QObj(StripReserved(qs)))) == Stringify(QObj(RenameEntries(StripReserved(qs))))
  {
    if PlainEntries(qs) {
      StripKeepsPlain(qs);
      RewriteIsStructural(QObj(StripReserved(qs)));
    }
  }

  /** The error thrown when `.replaceAll` is called on a nested object. */
  function NotAFunction(key: string): ErrorRecord
  {
    Raw("TypeError", "this.queryStr." + key + ".replaceAll is not a function")
  }

  /** The shared rule of `sort()` and `select()`: a missing or empty list
      gives the default, a string has its commas turned into spaces, and a
      nested object (which has no `replaceAll`) throws a TypeError. */
  function FieldList(key: string, v: Option<QValue>): (r: Result<string>)
    ensures v.None? || v == Some(QStr("")) ==> r == Ok(DefaultFieldList)
    ensures v.Some? && v.value.QStr? && v.value.text != "" ==>
      r.Ok? && |r.value| == |v.value.text| &&
      forall i :: 0 <= i < |r.value| ==>
        r.value[i] == (if v.value.text[i] == ',' then ' ' else v.value.text[i])
    ensures v.Some? && v.value.QObj? ==> r == Fail(NotAFunction(key))
  {
    match v
    case None => Ok(DefaultFieldList)
    case Some(QStr(t)) => if t == "" then Ok(DefaultFieldList) else Ok(ReplaceChar(t, ',', ' '))
    case Some(QObj(_)) => Fail(NotAFunction(key))
  }

  /** A comma-separated list becomes the same names separated by spaces. */
  lemma FieldListJoinsNames(key: string, text: string)
    requires text != ""
    ensures FieldList(key, Some(QStr(text))) == Ok(Join(Split(text, ','), " "))
  {
    ReplaceIsJoin(text, ',', ' ');
  }

  /** `sort()`. */
  function SortStep(q: Query, qs: seq<Entry>): (r: Result<Query>)
    ensures r.Ok? <==> FieldList("sort", Lookup(qs, "sort")).Ok?
    ensures r.Ok? ==> r.value == q.(sort := Some(FieldList("sort", Lookup(qs, "sort")).value))
  {
    var order :- FieldList("sort", Lookup(qs, "sort"));
    Ok(q.(sort := Some(order)))
  }

  /** `select()`. */
  function SelectStep(q: Query, qs: seq<Entry>): (r: Result<Query>)
    ensures r.Ok? <==> FieldList("fields", Lookup(qs, "fields")).Ok?
    ensures r.Ok? ==> r.value == q.(projection := Some(FieldList("fields", Lookup(qs, "fields")).value))
  {
    var fields :- FieldList("fields", Lookup(qs, "fields"));
    Ok(q.(projection := Some(fields)))
  }

  /** `+value || fallback`: JavaScript's number conversion of a query-string
      value, where NaN and 0 are both falsy and give the fallback. */
  function CoerceNumber(v: Option<QValue>, fallback: int): (n: int)
    requires fallback != 0
    ensures n != 0
    ensures v.None? ==> n == fallback
    ensures v.Some? && v.value.QObj? ==> n == fallback
    ensures v.Some? && v.value.QStr? ==>
      match ParseNumber(v.value.text)
      case Some(k) => n == (if k == 0 then fallback else k)
      case None => n == fallback
  {
    match v
    case Some(QStr(t)) =>
      (match ParseNumber(t)
       case Some(k) => if k == 0 then fallback else k
       case None => fallback)
    case _ => fallback
  }

  function PageOf(qs: seq<Entry>): int
  {
    CoerceNumber(Lookup(qs, "page"), DefaultPage)
  }

  function LimitOf(qs: seq<Entry>): int
  {
    CoerceNumber(Lookup(qs, "limit"), DefaultLimit)
  }

  /** The page size and number for a query string written by a client who
      asks for page p of size l (both positive). */
  lemma PageAndLimitRead(qs: seq<Entry>, p: nat, l: nat)
    requires p > 0 && l > 0
    requires Lookup(qs, "page") == Some(QStr(NatToDecimal(p)))
    requires Lookup(qs, "limit") == Some(QStr(NatToDecimal(l)))
    ensures PageOf(qs) == p && LimitOf(qs) == l
  {
    NumberRoundTrip(p);
    NumberRoundTrip(l);
  }

  /** `Math.ceil(a / b)` for an integer a and a non-zero integer b. */
  function CeilDiv(a: int, b: int): (r: int)
    requires b != 0
    ensures b > 0 ==> (r - 1) * b < a <= r * b
    ensures b < 0 ==> r * b <= a < (r - 1) * b
  {
    if b > 0 then -((-a) / b) else -(a / (-b))
  }

  /** `(page - 1) * limit`. */
  function SkipOf(qs: seq<Entry>): int
  {
    (PageOf(qs) - 1) * LimitOf(qs)
  }

  /** `pagination(count)`: a page past the last one (computed from the
      number of documents in the collection) throws "Page invalid" / 404;
      otherwise the query skips the earlier pages and takes one page. */
  function Pagination(q: Query, qs: seq<Entry>, count: nat): (r: Result<Query>)
    ensures r.Fail? <==> PageOf(qs) > CeilDiv(count, LimitOf(qs))
    ensures r.Fail? ==> r.error == AppErr("Page invalid", 404)
    ensures r.Ok? ==> r.value == q.(skip := Some(SkipOf(qs)), limit := Some(LimitOf(qs)))
  {
    var page := PageOf(qs);
    var limit := LimitOf(qs);
    var skip := (page - 1) * limit;
    var totalPages := CeilDiv(count, limit);
    if page > totalPages then Fail(AppErr("Page invalid", 404))
    else Ok(q.(skip := Some(skip), limit := Some(limit)))
  }

  lemma MulLeftMono(a: int, b: int, c: int)
    requires a <= b && c >= 0
    ensures a * c <= b * c
  {
  }

  /** For a positive page and page size, the page is accepted exactly when
      it starts before the end of the collection. */
  lemma PaginationWindow(q: Query, qs: seq<Entry>, count: nat)
    requires PageOf(qs) >= 1 && LimitOf(qs) > 0
    ensures Pagination(q, qs, count).Ok? <==> SkipOf(qs) < count
  {
    var page, limit := PageOf(qs), LimitOf(qs);
    var total := CeilDiv(count, limit);
    if page <= total {
      MulLeftMono(page - 1, total - 1, limit);
    } else {
      MulLeftMono(total, page - 1, limit);
    }
  }

  /** An empty collection has no valid page, whatever the page size. */
  lemma EmptyCollectionHasNoPage(q: Query, qs: seq<Entry>)
    requires PageOf(qs) >= 1
    ensures Pagination(q, qs, 0) == Fail(AppErr("Page invalid", 404))
  {
  }

  /** A page number that is zero or not a number reads as the first page,
      which every non-empty collection has. */
  lemma FirstPageOfNonEmpty(q: Query, qs: seq<Entry>, count: nat)
    requires Lookup(qs, "page").None? && LimitOf(qs) > 0 && count > 0
    ensures Pagination(q, qs, count) == Ok(q.(skip := Some(0), limit := Some(LimitOf(qs))))
  {
  }

  /** The pipeline as the list handler runs it: filter, sort, select,
      pagination, starting from an unconstrained query. `count` is the
      number of documents in the whole collection. */
  function Features(qs: seq<Entry>, count: nat): (r: Result<Query>)
    ensures r.Ok? <==>
      FieldList("sort", Lookup(qs, "sort")).Ok? &&
      FieldList("fields", Lookup(qs, "fields")).Ok? &&
      PageOf(qs) <= CeilDiv(count, LimitOf(qs))
    ensures r.Ok? ==>
      r.value.filter.Some? &&
      r.value.sort == Some(FieldList("sort", Lookup(qs, "sort")).value) &&
      r.value.projection == Some(FieldList("fields", Lookup(qs, "fields")).value) &&
      r.value.skip == Some(SkipOf(qs)) && r.value.limit == Some(LimitOf(qs))
    ensures r.Ok? && PlainEntries(qs) ==>
      r.value.filter == Some(Stringify(QObj(RenameEntries(StripReserved(qs)))))
  {
    var filtered := Filter(Unconstrained, qs);
    var sorted :- SortStep(filtered, qs);
    var selected :- SelectStep(sorted, qs);
    Pagination(selected, qs, count)
  }

  /** With no steering keys at all, a list request is sorted and projected
      by the default and, if the collection is not empty, gets the first ten
      documents. */
  lemma DefaultListing(qs: seq<Entry>, count: nat)
    requires forall e :: e in qs ==> e.key !in ReservedKeys
    requires count > 0
    ensures Features(qs, count).Ok?
    ensures Features(qs, count).value.sort == Some(DefaultFieldList)
    ensures Features(qs, count).value.projection == Some(DefaultFieldList)
    ensures Features(qs, count).value.skip == Some(0)
    ensures Features(qs, count).value.limit == Some(DefaultLimit)
  {
  }
}
