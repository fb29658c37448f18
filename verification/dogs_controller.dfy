/** The dog handlers, as functions of the stored collection. Executing a
    filter document against a dog is the parameter `matches`; the
    database's sort order and projection are not executed (the list keeps
    the stored order). */
module DogsController {
  import opened Common
  import opened Errors
  import opened FilterJson
  import opened ApiFeatures
  import opened DogModel

  datatype Group = Group(breedType: string, popularity: int, intelligence: int)

  /** What the client is told. */
  datatype Answer =
    | Listed(code: int, dogs: seq<Dog>)
    | One(code: int, dog: Dog)
    | Grouped(code: int, groups: seq<Group>)
    | NoContent(code: int)
    | Failed(error: ErrorRecord)

  datatype Step = Step(dogs: seq<Dog>, answer: Answer)

  const DogIdInvalid := "Dog id invalid"

  // ---- ordering -------------------------------------------------------

  predicate SortedDesc<T>(xs: seq<T>, key: T -> int)
  {
    forall i, j :: 0 <= i < j < |xs| ==> key(xs[i]) >= key(xs[j])
  }

  /** Insert x before the first element whose key is not larger. */
  function Insert<T>(x: T, xs: seq<T>, key: T -> int): (r: seq<T>)
    requires SortedDesc(xs, key)
    ensures SortedDesc(r, key)
    ensures |r| == |xs| + 1
    ensures forall k :: 0 <= k < |r| ==> r[k] == x || r[k] in xs
  {
    if |xs| == 0 then [x]
    else if key(x) >= key(xs[0]) then [x] + xs
    else
      var rest := Insert(x, xs[1..], key);
      assert forall k :: 0 <= k < |rest| ==> key(rest[k]) <= key(xs[0]) by {
        forall k | 0 <= k < |rest|
          ensures key(rest[k]) <= key(xs[0])
        {
          if rest[k] != x {
            var j :| 0 <= j < |xs[1..]| && xs[1..][j] == rest[k];
            assert xs[j + 1] == rest[k];
          }
        }
      }
      assert forall k :: 0 <= k < |rest| ==> rest[k] == x || rest[k] in xs by {
        forall k | 0 <= k < |rest| && rest[k] != x
          ensures rest[k] in xs
        {
          var j :| 0 <= j < |xs[1..]| && xs[1..][j] == rest[k];
          assert xs[j + 1] == rest[k];
        }
      }
      [xs[0]] + rest
  }

  /** Insertion adds exactly one copy of x and loses nothing. */
  lemma {:induction false} InsertPermutes<T>(x: T, xs: seq<T>, key: T -> int)
    requires SortedDesc(xs, key)
    ensures multiset(Insert(x, xs, key)) == multiset(xs) + multiset{x}
  {
    if |xs| > 0 && key(x) < key(xs[0]) {
      InsertPermutes(x, xs[1..], key);
      assert xs == [xs[0]] + xs[1..];
      assert Insert(x, xs, key) == [xs[0]] + Insert(x, xs[1..], key);
    }
  }

  /** A stable sort into non-increasing key order. */
  function SortDesc<T>(xs: seq<T>, key: T -> int): (r: seq<T>)
    ensures SortedDesc(r, key)
    ensures multiset(r) == multiset(xs)
    ensures |r| == |xs|
  {
    if |xs| == 0 then []
    else
      assert xs == [xs[0]] + xs[1..];
      InsertPermutes(xs[0], SortDesc(xs[1..], key), key);
      Insert(xs[0], SortDesc(xs[1..], key), key)
  }

  // ---- getAllDogs -----------------------------------------------------

  /** The dogs the filter document selects, in stored order. */
  function Matching(dogs: seq<Dog>, filter: string, matches: (string, Dog) -> bool): (r: seq<Dog>)
    ensures |r| <= |dogs|
    ensures forall d :: d in r ==> d in dogs && matches(filter, d)
    ensures forall k :: 0 <= k < |dogs| && matches(filter, dogs[k]) ==> dogs[k] in r
  {
    if |dogs| == 0 then []
    else
      var rest := Matching(dogs[1..], filter, matches);
      assert forall k :: 1 <= k < |dogs| ==> dogs[k] == dogs[1..][k - 1];
      if matches(filter, dogs[0]) then [dogs[0]] + rest else rest
  }

  function Abs(n: int): nat
  {
    if n < 0 then -n else n
  }

  /** `.skip(skip).limit(limit)` on a result list; a negative limit takes
      as many documents as its absolute value. */
  function Window(xs: seq<Dog>, skip: nat, limit: int): (r: seq<Dog>)
    ensures |r| <= Abs(limit)
    ensures forall d :: d in r ==> d in xs
    ensures skip >= |xs| ==> r == []
    ensures skip < |xs| ==> r == xs[skip..if skip + Abs(limit) < |xs| then skip + Abs(limit) else |xs|]
  {
    if skip >= |xs| then []
    else xs[skip..if skip + Abs(limit) < |xs| then skip + Abs(limit) else |xs|]
  }

  /** `getAllDogs`: the page check counts the whole collection, the page
      itself is cut from the dogs the filter selects. */
  function GetAllDogs(dogs: seq<Dog>, qs: seq<Entry>, matches: (string, Dog) -> bool): (r: Step)
    ensures r.dogs == dogs
    ensures Features(qs, |dogs|).Fail? ==> r.answer == Failed(Features(qs, |dogs|).error)
    ensures r.answer.Listed? ==>
      var q := Features(qs, |dogs|).value;
      r.answer.code == 200 && q.skip.value >= 0
      && r.answer.dogs == Window(Matching(dogs, q.filter.value, matches), q.skip.value, q.limit.value)
    ensures r.answer.Listed? ==>
      var q := Features(qs, |dogs|).value;
      |r.answer.dogs| <= Abs(q.limit.value)
      && forall d :: d in r.answer.dogs ==> d in dogs && matches(q.filter.value, d)
    ensures Features(qs, |dogs|).Ok? ==>
      var q := Features(qs, |dogs|).value;
      (q.skip.value >= 0 ==>
         r.answer == Listed(200, Window(Matching(dogs, q.filter.value, matches), q.skip.value, q.limit.value)))
      && (q.skip.value < 0 ==> r.answer == Failed(Raw("MongoServerError", "BSON field 'skip' value must be >= 0")))
    ensures r.answer.Listed? || r.answer.Failed?
  {
    match Features(qs, |dogs|)
    case Fail(e) => Step(dogs, Failed(e))
    case Ok(q) =>
      var skip := q.skip.value;
      if skip < 0 then
        Step(dogs, Failed(Raw("MongoServerError", "BSON field 'skip' value must be >= 0")))
      else
        Step(dogs, Listed(200, Window(Matching(dogs, q.filter.value, matches), skip, q.limit.value)))
  }

  /** The page check uses the size of the whole collection, so a page past
      the filtered dogs but within the collection is accepted and empty. */
  lemma PageWithinCollectionMayBeEmpty(dogs: seq<Dog>, qs: seq<Entry>, matches: (string, Dog) -> bool)
    requires Features(qs, |dogs|).Ok?
    requires |Matching(dogs, Features(qs, |dogs|).value.filter.value, matches)| <= SkipOf(qs)
    ensures GetAllDogs(dogs, qs, matches).answer == Listed(200, [])
  {
  }

  // ---- createDog ------------------------------------------------------

  function CreateFrom(dogs: seq<Dog>, input: DogInput, loadTime: int): (r: Step)
    ensures r.answer.One? || r.answer.Failed?
    ensures r.answer.Failed? ==> r.dogs == dogs
    ensures r.answer.One? ==>
      r.answer == One(200, NewDog(FreshId(dogs), input, loadTime))
      && r.dogs == dogs + [NewDog(FreshId(dogs), input, loadTime)]
  {
    match Create(dogs, input, loadTime)
    case Ok(stored) => Step(stored, One(200, NewDog(FreshId(dogs), input, loadTime)))
    case Fail(e) => Step(dogs, Failed(e))
  }

  /** `createDog` as written: it reads `req.bodys`, a property that does
      not exist, so the document is built from no fields at all. */
  function CreateDogAsWritten(dogs: seq<Dog>, body: DogInput, loadTime: int): (r: Step)
    ensures r == CreateFrom(dogs, NoInput, loadTime)
  {
    CreateFrom(dogs, NoInput, loadTime)
  }

  /** As written, every create request fails validation on exactly the
      three required fields, whatever its body, and nothing is stored. */
  lemma CreateDogIgnoresBody(dogs: seq<Dog>, body: DogInput, loadTime: int)
    ensures CreateDogAsWritten(dogs, body, loadTime)
      == Step(dogs, Failed(ValidationError(Validate(NewDog(FreshId(dogs), NoInput, loadTime)))))
    ensures multiset(Validate(NewDog(FreshId(dogs), NoInput, loadTime)))
      == multiset{NameRequired, BreedRequired, PhotoRequired}
  {
  }

  /** `createDog` reading `req.body`. */
  function CreateDog(dogs: seq<Dog>, body: DogInput, loadTime: int): (r: Step)
    ensures r == CreateFrom(dogs, body, loadTime)
  {
    CreateFrom(dogs, body, loadTime)
  }

  /** A valid body with a free name creates exactly that dog, with the
      schema defaults for the fields it leaves out, and keeps names
      unique. */
  lemma CreateDogUsesBody(dogs: seq<Dog>, body: DogInput, loadTime: int)
    requires UniqueNames(dogs)
    requires Present(body.name) && Present(body.breed) && Present(body.photo)
    requires body.breedType.None? || body.breedType.value in BreedTypes
    requires forall j :: 0 <= j < |dogs| ==> dogs[j].name != body.name
    ensures CreateDog(dogs, body, loadTime).answer.One?
    ensures var d := CreateDog(dogs, body, loadTime).answer.dog;
      d.name == body.name && d.breed == body.breed && d.photo == body.photo
      && (body.owner.None? ==> d.owner == DefaultOwner)
      && (body.breedType.None? ==> d.breedType == DefaultBreedType)
    ensures UniqueNames(CreateDog(dogs, body, loadTime).dogs)
  {
  }

  // ---- getDog, updateDog, deleteDog -----------------------------------

  /** `getDog`. */
  function GetDog(dogs: seq<Dog>, id: nat): (r: Step)
    ensures r.dogs == dogs
    ensures IndexOfId(dogs, id).None? ==> r.answer == Failed(AppErr(DogIdInvalid, 400))
    ensures IndexOfId(dogs, id).Some? ==>
      (r.answer.One? && r.answer.code == 200 && r.answer.dog.id == id && r.answer.dog in dogs)
    ensures IndexOfId(dogs, id).Some? ==> r.answer == One(200, dogs[IndexOfId(dogs, id).value])
  {
    match IndexOfId(dogs, id)
    case None => Step(dogs, Failed(AppErr(DogIdInvalid, 400)))
    case Some(i) => Step(dogs, One(200, dogs[i]))
  }

  /** The update validators: only the paths the update sets are checked. */
  function UpdateMessages(patch: DogInput): seq<string>
  {
    (if patch.name.Some? && !Present(patch.name) then [NameRequired] else [])
    + (if patch.breed.Some? && !Present(patch.breed) then [BreedRequired] else [])
    + (if patch.photo.Some? && !Present(patch.photo) then [PhotoRequired] else [])
    + (if patch.breedType.Some? && patch.breedType.value !in BreedTypes then [BreedTypeInvalid] else [])
  }

  /** The stored dog with the fields the update sets overwritten. */
  function Apply(d: Dog, patch: DogInput): (r: Dog)
    ensures r.id == d.id
    ensures r.name == (if patch.name.Some? then patch.name else d.name)
    ensures r.breed == (if patch.breed.Some? then patch.breed else d.breed)
    ensures r.photo == (if patch.photo.Some? then patch.photo else d.photo)
    ensures r.breedType == OrElse(patch.breedType, d.breedType)
    ensures r.owner == OrElse(patch.owner, d.owner)
  {
    Dog(d.id,
        if patch.name.Some? then patch.name else d.name,
        OrElse(patch.owner, d.owner),
        if patch.breed.Some? then patch.breed else d.breed,
        OrElse(patch.breedType, d.breedType),
        OrElse(patch.popularity, d.popularity),
        OrElse(patch.intelligence, d.intelligence),
        if patch.photo.Some? then patch.photo else d.photo,
        OrElse(patch.createdAt, d.createdAt))
  }

  /** `updateDog`: the update validators run first, then the lookup (400
      when absent), then the unique index; the answer is the updated
      document with 201. */
  function UpdateDog(dogs: seq<Dog>, id: nat, patch: DogInput): (r: Step)
    ensures UpdateMessages(patch) != [] ==> r == Step(dogs, Failed(ValidationError(UpdateMessages(patch))))
    ensures UpdateMessages(patch) == [] && IndexOfId(dogs, id).None? ==>
      r == Step(dogs, Failed(AppErr(DogIdInvalid, 400)))
    ensures r.answer.One? ==>
      var i := IndexOfId(dogs, id).value;
      r.answer == One(201, Apply(dogs[i], patch)) && r.dogs == dogs[i := Apply(dogs[i], patch)]
      && !NameTaken(dogs, i, Apply(dogs[i], patch).name)
    ensures UpdateMessages(patch) == [] && IndexOfId(dogs, id).Some? ==>
      var i := IndexOfId(dogs, id).value;
      var u := Apply(dogs[i], patch);
      (NameTaken(dogs, i, u.name) ==> r == Step(dogs, Failed(DuplicateKeyError("name", Show(u.name)))))
      && (!NameTaken(dogs, i, u.name) ==> r == Step(dogs[i := u], One(201, u)))
    ensures r.answer.One? || r.answer.Failed?
    ensures r.answer.Failed? ==> r.dogs == dogs
  {
    var messages := UpdateMessages(patch);
    if messages != [] then Step(dogs, Failed(ValidationError(messages)))
    else match IndexOfId(dogs, id)
      case None => Step(dogs, Failed(AppErr(DogIdInvalid, 400)))
      case Some(i) =>
        var updated := Apply(dogs[i], patch);
        if NameTaken(dogs, i, updated.name) then Step(dogs, Failed(DuplicateKeyError("name", Show(updated.name))))
        else Step(dogs[i := updated], One(201, updated))
  }

  /** An accepted update keeps a valid dog valid and names unique. */
  lemma UpdateKeepsInvariants(dogs: seq<Dog>, id: nat, patch: DogInput)
    requires UniqueNames(dogs) && forall j :: 0 <= j < |dogs| ==> Valid(dogs[j])
    requires UpdateDog(dogs, id, patch).answer.One?
    ensures UniqueNames(UpdateDog(dogs, id, patch).dogs)
    ensures forall j :: 0 <= j < |dogs| ==> Valid(UpdateDog(dogs, id, patch).dogs[j])
  {
  }

  /** The collection without the document at position i. */
  function RemoveAt(dogs: seq<Dog>, i: nat): (r: seq<Dog>)
    requires i < |dogs|
    ensures |r| == |dogs| - 1
    ensures forall j :: 0 <= j < i ==> r[j] == dogs[j]
    ensures forall j :: i <= j < |r| ==> r[j] == dogs[j + 1]
  {
    dogs[..i] + dogs[i + 1..]
  }

  /** `deleteDog`: 400 when absent, otherwise the dog is removed and the
      answer is an empty 204. */
  function DeleteDog(dogs: seq<Dog>, id: nat): (r: Step)
    ensures IndexOfId(dogs, id).None? ==> r == Step(dogs, Failed(AppErr(DogIdInvalid, 400)))
    ensures IndexOfId(dogs, id).Some? ==>
      r == Step(RemoveAt(dogs, IndexOfId(dogs, id).value), NoContent(204))
  {
    match IndexOfId(dogs, id)
    case None => Step(dogs, Failed(AppErr(DogIdInvalid, 400)))
    case Some(i) => Step(RemoveAt(dogs, i), NoContent(204))
  }

  /** After a delete no dog carries the id and every other dog remains. */
  lemma DeleteRemovesExactlyOne(dogs: seq<Dog>, id: nat)
    requires UniqueNames(dogs) && IndexOfId(dogs, id).Some?
    ensures |DeleteDog(dogs, id).dogs| == |dogs| - 1
    ensures forall j :: 0 <= j < |DeleteDog(dogs, id).dogs| ==> DeleteDog(dogs, id).dogs[j].id != id
    ensures forall j :: 0 <= j < |dogs| && dogs[j].id != id ==> dogs[j] in DeleteDog(dogs, id).dogs
  {
  }

  /** Deleting twice: the second request is answered 400. */
  lemma DeleteTwiceFails(dogs: seq<Dog>, id: nat)
    requires UniqueNames(dogs) && IndexOfId(dogs, id).Some?
    ensures DeleteDog(DeleteDog(dogs, id).dogs, id).answer == Failed(AppErr(DogIdInvalid, 400))
  {
  }

  // ---- getTop3SmartDogs -----------------------------------------------

  function IntelligenceOf(d: Dog): int
  {
    d.intelligence
  }

  /** In a sorted sequence, whatever is left after the first m elements
      ranks no higher than any of them. */
  lemma {:induction false} SortedPrefixDominates<T>(s: seq<T>, m: nat, key: T -> int)
    requires SortedDesc(s, key) && m <= |s|
    ensures forall d :: d in multiset(s) - multiset(s[..m]) ==>
      forall k :: 0 <= k < m ==> key(s[k]) >= key(d)
  {
    assert s == s[..m] + s[m..];
    assert multiset(s) == multiset(s[..m]) + multiset(s[m..]);
    forall d | d in multiset(s) - multiset(s[..m])
      ensures forall k :: 0 <= k < m ==> key(s[k]) >= key(d)
    {
      assert d in multiset(s[m..]);
      var j :| 0 <= j < |s[m..]| && s[m..][j] == d;
      assert s[m + j] == d;
    }
  }

  /** `getTop3SmartDogs`: sort by intelligence, highest first, keep three. */
  function Top3(dogs: seq<Dog>): (r: seq<Dog>)
    ensures |r| == if |dogs| < 3 then |dogs| else 3
    ensures SortedDesc(r, IntelligenceOf)
    ensures multiset(r) <= multiset(dogs)
  {
    var s := SortDesc(dogs, IntelligenceOf);
    var m := if |s| < 3 then |s| else 3;
    assert s == s[..m] + s[m..];
    s[..m]
  }

  /** No dog left out of the top three is smarter than one in it. */
  lemma Top3TakesTheSmartest(dogs: seq<Dog>)
    ensures forall d :: d in multiset(dogs) - multiset(Top3(dogs)) ==>
      forall k :: 0 <= k < |Top3(dogs)| ==> IntelligenceOf(Top3(dogs)[k]) >= IntelligenceOf(d)
  {
    var s := SortDesc(dogs, IntelligenceOf);
    var m := if |s| < 3 then |s| else 3;
    assert Top3(dogs) == s[..m];
    SortedPrefixDominates(s, m, IntelligenceOf);
  }

  // ---- getDogsStats ---------------------------------------------------

  predicate HasBreedType(dogs: seq<Dog>, t: string)
  {
    exists i :: 0 <= i < |dogs| && dogs[i].breedType == t
  }

  /** The distinct breed types, in order of first appearance. */
  function DistinctBreedTypes(dogs: seq<Dog>): (r: seq<string>)
    ensures forall t :: t in r <==> HasBreedType(dogs, t)
    ensures forall i, j :: 0 <= i < j < |r| ==> r[i] != r[j]
  {
    if |dogs| == 0 then []
    else
      var init := dogs[..|dogs| - 1];
      var rest := DistinctBreedTypes(init);
      assert forall k :: 0 <= k < |init| ==> init[k] == dogs[k];
      var t := dogs[|dogs| - 1].breedType;
      if t in rest then rest else rest + [t]
  }

  function PopularitySum(dogs: seq<Dog>, t: string): int
  {
    if |dogs| == 0 then 0
    else (if dogs[0].breedType == t then dogs[0].popularity else 0) + PopularitySum(dogs[1..], t)
  }

  function IntelligenceSum(dogs: seq<Dog>, t: string): int
  {
    if |dogs| == 0 then 0
    else (if dogs[0].breedType == t then dogs[0].intelligence else 0) + IntelligenceSum(dogs[1..], t)
  }

  /** The `$group` stage: one group per breed type with summed popularity
      and intelligence. */
  function Groups(dogs: seq<Dog>): (gs: seq<Group>)
    ensures |gs| == |DistinctBreedTypes(dogs)|
    ensures forall k :: 0 <= k < |gs| ==>
      var t := DistinctBreedTypes(dogs)[k];
      gs[k] == Group(t, PopularitySum(dogs, t), IntelligenceSum(dogs, t))
  {
    var ts := DistinctBreedTypes(dogs);
    seq(|ts|, k requires 0 <= k < |ts| => Group(ts[k], PopularitySum(dogs, ts[k]), IntelligenceSum(dogs, ts[k])))
  }

  function PopularityOf(g: Group): int
  {
    g.popularity
  }

  /** `getDogsStats`: the groups, most popular first. */
  function Stats(dogs: seq<Dog>): (r: seq<Group>)
    ensures SortedDesc(r, PopularityOf)
    ensures multiset(r) == multiset(Groups(dogs))
  {
    SortDesc(Groups(dogs), PopularityOf)
  }

  /** The statistics hold one group for each breed type present, each with
      the sums over exactly the dogs of that type. */
  lemma StatsAreGroupSums(dogs: seq<Dog>)
    ensures |Stats(dogs)| == |DistinctBreedTypes(dogs)|
    ensures forall g :: g in Stats(dogs) ==>
      HasBreedType(dogs, g.breedType)
      && g.popularity == PopularitySum(dogs, g.breedType)
      && g.intelligence == IntelligenceSum(dogs, g.breedType)
    ensures forall t :: HasBreedType(dogs, t) ==> exists g :: g in Stats(dogs) && g.breedType == t
  {
    var r := Stats(dogs);
    var gs := Groups(dogs);
    var ts := DistinctBreedTypes(dogs);
    assert |r| == |gs| by {
      assert |multiset(r)| == |multiset(gs)|;
    }
    forall g | g in r
      ensures HasBreedType(dogs, g.breedType)
      ensures g.popularity == PopularitySum(dogs, g.breedType)
      ensures g.intelligence == IntelligenceSum(dogs, g.breedType)
    {
      assert g in multiset(gs);
      var k :| 0 <= k < |gs| && gs[k] == g;
      assert ts[k] in ts;
    }
    forall t | HasBreedType(dogs, t)
      ensures exists g :: g in r && g.breedType == t
    {
      var k :| 0 <= k < |ts| && ts[k] == t;
      assert gs[k] in multiset(r);
    }
  }
}
