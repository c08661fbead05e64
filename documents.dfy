/** Documents as the backend sees them: JSON-like field values stored in
    MongoDB collections, request fields that may be `undefined`, and the
    JavaScript truthiness the handlers use to gate updates. */
module Documents {

  datatype Option<+T> = None | Some(value: T)

  /** A document id (MongoDB's ObjectId). */
  type Id = nat

  /** A JSON value. Numbers are integers only; embedded objects are not
      represented. */
  datatype Value = Null | Bool(b: bool) | Num(n: int) | Str(s: string) | Arr(elems: seq<Value>)

  /** A field name. The names the handlers mention each have a constructor
      (`Name` is "name", `IsVerified` is "isVerified", `Img` is "img", ...);
      `Other(s)` stands for every other name `s`, such as "isAds" or "userId".
      `IsFieldKey` rules out an `Other` spelling of a name that has its own
      constructor, so that each field name has one key. */
  datatype Key =
    | Name | Email | Password | Phone | IsVerified | Image | Location | TotalPost | RentSuccess
    | Type | IsNegotiable | BedRoom | BathRoom | Kitchen | DrawingRoom | DiningRoom | Balcony
    | Bills | Img | Price | AdditionalMessage | LikeCount | IsPublicNumber | IsSold | IsApproved
    | IsAdminPost
    | Other(name: string)

  /** The JSON name of a field. */
  function FieldName(k: Key): string
  {
    match k
    case Name => "name"
    case Email => "email"
    case Password => "password"
    case Phone => "phone"
    case IsVerified => "isVerified"
    case Image => "image"
    case Location => "location"
    case TotalPost => "totalPost"
    case RentSuccess => "rentSuccess"
    case Type => "type"
    case IsNegotiable => "isNegotiable"
    case BedRoom => "bedRoom"
    case BathRoom => "bathRoom"
    case Kitchen => "kitchen"
    case DrawingRoom => "drawingRoom"
    case DiningRoom => "diningRoom"
    case Balcony => "balcony"
    case Bills => "bills"
    case Img => "img"
    case Price => "price"
    case AdditionalMessage => "additionalMessage"
    case LikeCount => "likeCount"
    case IsPublicNumber => "isPublicNumber"
    case IsSold => "isSold"
    case IsApproved => "isApproved"
    case IsAdminPost => "isAdminPost"
    case Other(s) => s
  }

  /** The names that have a constructor of their own. */
  const KNOWN_NAMES: set<string> := {
    "name", "email", "password", "phone", "isVerified", "image", "location", "totalPost",
    "rentSuccess", "type", "isNegotiable", "bedRoom", "bathRoom", "kitchen", "drawingRoom",
    "diningRoom", "balcony", "bills", "img", "price", "additionalMessage", "likeCount",
    "isPublicNumber", "isSold", "isApproved", "isAdminPost"}

  /** `k` is the one key of its field name: `Other` is used only for names
      without a constructor of their own. */
  predicate IsFieldKey(k: Key)
  {
    k.Other? ==> k.name !in KNOWN_NAMES
  }

  /** A stored document or a request object: a map from field name to value. */
  type Doc = map<Key, Value>

  /** A field read from a request object: None is JavaScript's `undefined`. */
  type Field = Option<Value>

  /** `d.k` in JavaScript: undefined when the field is absent. */
  function Lookup(d: Doc, k: Key): Field
  {
    if k in d then Some(d[k]) else None
  }

  /** JavaScript's ToBoolean on the values a JSON body can carry. */
  predicate Truthy(f: Field)
  {
    match f
    case None => false
    case Some(Null) => false
    case Some(Bool(b)) => b
    case Some(Num(n)) => n != 0
    case Some(Str(s)) => s != ""
    case Some(Arr(_)) => true
  }

  /** What the MongoDB driver writes (or queries) for a JavaScript value:
      `undefined` is serialized as null. */
  function Stored(f: Field): Value
  {
    if f.Some? then f.value else Null
  }

  /** MongoDB's equality match of a query value `v` against a stored field
      `f`: the field holds the value, or is an array holding it among its
      elements; a null query value also matches a missing field. */
  predicate Matches(f: Field, v: Value)
  {
    f == Some(v) || (v == Null && f == None) || (f.Some? && f.value.Arr? && v in f.value.elems)
  }

  /** The falsy request fields are exactly undefined, null, false, 0 and "";
      every array, even an empty one, is truthy. */
  lemma FalsyFields(f: Field)
    ensures !Truthy(f) <==>
      f == None || f == Some(Null) || f == Some(Bool(false)) || f == Some(Num(0)) || f == Some(Str(""))
    ensures f.Some? && f.value.Arr? ==> Truthy(f)
  {
  }

  /** A truthy field is always a defined one, so a field gated on truthiness
      is never written with a value a definedness gate would refuse. */
  lemma TruthyIsDefined(f: Field)
    ensures Truthy(f) ==> f.Some? && f.value != Null
  {
  }
}
