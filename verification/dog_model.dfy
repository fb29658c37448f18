/** The dog record, its schema (defaults, required fields, the breed-type
    enumeration, the unique name) and the derived `description`. */
module DogModel {
  import opened Common
  import opened Errors

  datatype Dog = Dog(
    id: nat,
    name: Option<string>,
    owner: string,
    breed: Option<string>,
    breedType: string,
    popularity: int,
    intelligence: int,
    photo: Option<string>,
    createdAt: int)

  /** The fields a request may supply; None is an absent field. */
  datatype DogInput = DogInput(
    name: Option<string>,
    owner: Option<string>,
    breed: Option<string>,
    breedType: Option<string>,
    popularity: Option<int>,
    intelligence: Option<int>,
    photo: Option<string>,
    createdAt: Option<int>)

  const NoInput := DogInput(None, None, None, None, None, None, None, None)

  const BreedTypes: set<string> := {"Purebred", "Wild"}
  const DefaultOwner := "none"
  const DefaultBreedType := "Purebred"
  const DefaultPopularity := 0
  const DefaultIntelligence := 1

  const NameRequired := "Dog must have a name"
  const BreedRequired := "Dog must have a breed"
  const PhotoRequired := "Dog must have a photo"
  const BreedTypeInvalid := "Breed Type either Purebred and Wild"

  function OrElse<T>(v: Option<T>, fallback: T): T
  {
    match v
    case Some(x) => x
    case None => fallback
  }

  /** A new document from the request's fields and the schema defaults.
      The default `createdAt` is the time the schema was loaded
      (`loadTime`), not the time of creation. */
  function NewDog(id: nat, input: DogInput, loadTime: int): (d: Dog)
    ensures d.id == id && d.name == input.name && d.breed == input.breed && d.photo == input.photo
    ensures input.owner.None? ==> d.owner == DefaultOwner
    ensures input.breedType.None? ==> d.breedType == DefaultBreedType
    ensures input.popularity.None? ==> d.popularity == DefaultPopularity
    ensures input.intelligence.None? ==> d.intelligence == DefaultIntelligence
    ensures input.createdAt.None? ==> d.createdAt == loadTime
    ensures input.owner.Some? ==> d.owner == input.owner.value
    ensures input.breedType.Some? ==> d.breedType == input.breedType.value
    ensures input.popularity.Some? ==> d.popularity == input.popularity.value
    ensures input.intelligence.Some? ==> d.intelligence == input.intelligence.value
    ensures input.createdAt.Some? ==> d.createdAt == input.createdAt.value
  {
    Dog(id, input.name, OrElse(input.owner, DefaultOwner), input.breed,
        OrElse(input.breedType, DefaultBreedType), OrElse(input.popularity, DefaultPopularity),
        OrElse(input.intelligence, DefaultIntelligence), input.photo, OrElse(input.createdAt, loadTime))
  }

  /** Dogs created without a `createdAt` all carry the schema's load
      time, however far apart they were created. */
  lemma CreatedAtIsLoadTime(id1: nat, id2: nat, in1: DogInput, in2: DogInput, loadTime: int)
    requires in1.createdAt.None? && in2.createdAt.None?
    ensures NewDog(id1, in1, loadTime).createdAt == NewDog(id2, in2, loadTime).createdAt
  {
  }

  /** The mapper's `required` test for a string: present and not empty. */
  predicate Present(v: Option<string>)
  {
    v.Some? && v.value != ""
  }

  /** The validator messages, one per failing path. The model lists them
      in schema order; the order the document mapper reports them in
      depends on each path's state and is not modelled. */
  function Validate(d: Dog): seq<string>
  {
    (if Present(d.name) then [] else [NameRequired])
    + (if Present(d.breed) then [] else [BreedRequired])
    + (if Present(d.photo) then [] else [PhotoRequired])
    + (if d.breedType in BreedTypes then [] else [BreedTypeInvalid])
  }

  predicate Valid(d: Dog)
  {
    Present(d.name) && Present(d.breed) && Present(d.photo) && d.breedType in BreedTypes
  }

  /** Validation reports nothing exactly when the schema's constraints
      hold, and names each failing one. */
  lemma ValidateIffValid(d: Dog)
    ensures Validate(d) == [] <==> Valid(d)
    ensures !Present(d.name) ==> NameRequired in Validate(d)
    ensures !Present(d.breed) ==> BreedRequired in Validate(d)
    ensures !Present(d.photo) ==> PhotoRequired in Validate(d)
    ensures d.breedType !in BreedTypes ==> BreedTypeInvalid in Validate(d)
  {
  }

  /** A document made from no fields at all fails on exactly the three
      required fields, each reported once (the default breed type is
      valid). */
  lemma EmptyInputFails(id: nat, loadTime: int)
    ensures multiset(Validate(NewDog(id, NoInput, loadTime))) == multiset{NameRequired, BreedRequired, PhotoRequired}
  {
  }

  /** The `description` virtual. */
  function Description(d: Dog): (text: string)
    ensures |text| == |Show(d.name)| + |Show(d.breed)| + |d.breedType| + |Show(d.photo)| + 44
  {
    Show(d.name) + " is " + Show(d.breed) + ", and " + d.breedType
      + " you can watch dog imgage in here " + Show(d.photo)
  }

  /** The description begins with the name and ends with the photo, and
      the fixed words sit between them. */
  lemma DescriptionParts(d: Dog)
    requires Present(d.name) && Present(d.photo)
    ensures Description(d)[..|d.name.value|] == d.name.value
    ensures Description(d)[|Description(d)| - |d.photo.value|..] == d.photo.value
    ensures Description(d)[|d.name.value|..|d.name.value| + 4] == " is "
  {
  }

  /** No two dogs of the collection share a name, and ids are distinct. */
  predicate UniqueNames(dogs: seq<Dog>)
  {
    forall i, j :: 0 <= i < j < |dogs| ==> dogs[i].name != dogs[j].name && dogs[i].id != dogs[j].id
  }

  /** The unique index on `name`, for a record written at position `self`
      (-1 for a new record). */
  predicate NameTaken(dogs: seq<Dog>, self: int, name: Option<string>)
  {
    exists j :: 0 <= j < |dogs| && j != self && dogs[j].name == name
  }

  /** An id no stored dog carries (the database's fresh object id). */
  function FreshId(dogs: seq<Dog>): (id: nat)
    ensures forall j :: 0 <= j < |dogs| ==> dogs[j].id < id
  {
    if |dogs| == 0 then 0
    else
      var rest := FreshId(dogs[1..]);
      assert forall j :: 1 <= j < |dogs| ==> dogs[j] == dogs[1..][j - 1];
      if rest > dogs[0].id then rest else dogs[0].id + 1
  }

  /** The position of the dog with this id, if any. */
  function IndexOfId(dogs: seq<Dog>, id: nat): (r: Option<nat>)
    ensures r.Some? ==> r.value < |dogs| && dogs[r.value].id == id
    ensures r.None? <==> forall j :: 0 <= j < |dogs| ==> dogs[j].id != id
  {
    if |dogs| == 0 then None
    else if dogs[0].id == id then Some(0)
    else match IndexOfId(dogs[1..], id)
      case None => None
      case Some(k) => Some(k + 1)
  }

  /** `Dog.create(input)`: validation, then the unique index, then the
      write; the new dog is appended. */
  function Create(dogs: seq<Dog>, input: DogInput, loadTime: int): (r: Result<seq<Dog>>)
    ensures r.Ok? <==> Valid(NewDog(FreshId(dogs), input, loadTime))
                       && !NameTaken(dogs, -1, input.name)
    ensures !Valid(NewDog(FreshId(dogs), input, loadTime)) ==>
      r == Fail(ValidationError(Validate(NewDog(FreshId(dogs), input, loadTime))))
    ensures r.Ok? ==> r.value == dogs + [NewDog(FreshId(dogs), input, loadTime)]
    ensures r.Ok? && UniqueNames(dogs) ==> UniqueNames(r.value)
  {
    var d := NewDog(FreshId(dogs), input, loadTime);
    ValidateIffValid(d);
    var messages := Validate(d);
    if messages != [] then Fail(ValidationError(messages))
    else if NameTaken(dogs, -1, d.name) then Fail(DuplicateKeyError("name", Show(d.name)))
    else Ok(dogs + [d])
  }
}
