/** Sparse updates: the `update-user` and `update-post` handlers copy
    whitelisted request fields into an update object, each field under one
    of two gates (`if (data.f)` or `if (data.f !== undefined)`), and
    `$set`-merge that object into the stored document. */
module Patch {
  import opened Documents

  /** A whitelist: the fields copied when truthy and those copied when defined. */
  datatype Whitelist = Whitelist(whenTruthy: set<Key>, whenDefined: set<Key>)

  /** The whitelist of `update-user`. */
  const USER_FIELDS := Whitelist(
    {Name, Email, Password, Phone, Location},
    {IsVerified, Image, TotalPost, RentSuccess})

  /** The whitelist of `update-post`. */
  const POST_FIELDS := Whitelist(
    {Location, Type},
    {IsNegotiable, BedRoom, BathRoom, Kitchen, DrawingRoom, DiningRoom, Balcony, Bills, Img,
     Price, AdditionalMessage, LikeCount, IsPublicNumber, IsSold, IsApproved, IsAdminPost})

  /** The request value of field `k` passes the whitelist's gate for `k`. */
  predicate Admits(w: Whitelist, data: Doc, k: Key)
  {
    (k in w.whenTruthy && Truthy(Lookup(data, k))) || (k in w.whenDefined && Lookup(data, k) != None)
  }

  /** The update object a handler builds from the request object `data`: every
      whitelisted field whose request value passes its gate, with that value.
      The handlers assign the fields one `if` at a time; as the fields are
      distinct, the object they end with is this one. */
  function UpdateObject(w: Whitelist, data: Doc): (patch: Doc)
    ensures forall k :: k in patch ==> k in w.whenTruthy + w.whenDefined
    ensures forall k :: k in patch ==> k in data && patch[k] == data[k]
  {
    map k | k in w.whenTruthy + w.whenDefined && Admits(w, data, k) :: data[k]
  }

  /** MongoDB's `$set`: every field of the patch overwrites (or adds) the
      stored field of that name. */
  function SetFields(d: Doc, patch: Doc): (r: Doc)
    ensures r.Keys == d.Keys + patch.Keys
    ensures forall k :: k in patch ==> r[k] == patch[k]
    ensures forall k :: k in d && k !in patch ==> r[k] == d[k]
  {
    d + patch
  }

  /** A field is in the update object exactly when its gate admits the
      request value, and then it carries that value. */
  lemma UpdateObjectField(w: Whitelist, data: Doc, k: Key)
    ensures Lookup(UpdateObject(w, data), k) == if Admits(w, data, k) then Lookup(data, k) else None
  {
  }

  /** After `$set` of an update object, a field of the stored document has
      the request's value when admitted and is otherwise left as it was,
      present or absent. */
  lemma SetUpdateField(d: Doc, w: Whitelist, data: Doc, k: Key)
    ensures Lookup(SetFields(d, UpdateObject(w, data)), k) ==
      if Admits(w, data, k) then Lookup(data, k) else Lookup(d, k)
  {
    UpdateObjectField(w, data, k);
  }

  /** Sending the same update twice stores what sending it once does. */
  lemma SetFieldsIdempotent(d: Doc, patch: Doc)
    ensures SetFields(SetFields(d, patch), patch) == SetFields(d, patch)
  {
  }

  /** The gates of `update-user` field by field: `name`, `email`, `password`,
      `phone` and `location` are copied only when truthy; `isVerified`,
      `image`, `totalPost` and `rentSuccess` whenever defined; no other field
      is ever copied. */
  lemma UserUpdateObjectFields(data: Doc)
    ensures Name in UpdateObject(USER_FIELDS, data) <==> Truthy(Lookup(data, Name))
    ensures Email in UpdateObject(USER_FIELDS, data) <==> Truthy(Lookup(data, Email))
    ensures Password in UpdateObject(USER_FIELDS, data) <==> Truthy(Lookup(data, Password))
    ensures Phone in UpdateObject(USER_FIELDS, data) <==> Truthy(Lookup(data, Phone))
    ensures Location in UpdateObject(USER_FIELDS, data) <==> Truthy(Lookup(data, Location))
    ensures IsVerified in UpdateObject(USER_FIELDS, data) <==> IsVerified in data
    ensures Image in UpdateObject(USER_FIELDS, data) <==> Image in data
    ensures TotalPost in UpdateObject(USER_FIELDS, data) <==> TotalPost in data
    ensures RentSuccess in UpdateObject(USER_FIELDS, data) <==> RentSuccess in data
    ensures forall k :: k in UpdateObject(USER_FIELDS, data) ==>
      k in {Name, Email, Password, Phone, Location, IsVerified, Image, TotalPost, RentSuccess}
  {
  }

  /** The truthiness gates of `update-post`: `location` and `type` are copied
      only when truthy; `isAds`, the owner fields and every other field
      outside the names the handlers know are never copied. */
  lemma PostUpdateObjectFields(data: Doc)
    ensures Location in UpdateObject(POST_FIELDS, data) <==> Truthy(Lookup(data, Location))
    ensures Type in UpdateObject(POST_FIELDS, data) <==> Truthy(Lookup(data, Type))
    ensures forall s :: Other(s) !in UpdateObject(POST_FIELDS, data)
  {
  }

  /** Every key of the `update-post` update object is the one key of its
      field name, and none is named "isAds" or "userId". */
  lemma PostUpdateObjectKeys(data: Doc)
    ensures forall k :: k in UpdateObject(POST_FIELDS, data) ==> IsFieldKey(k) && FieldName(k) !in {"isAds", "userId"}
  {
  }

  /** The definedness gates of `update-post`: each of the sixteen other
      whitelisted fields, `img` among them, is copied whenever it is defined,
      whatever its value. */
  lemma PostUpdateObjectDefinedFields(data: Doc, k: Key)
    requires k in POST_FIELDS.whenDefined
    ensures k in UpdateObject(POST_FIELDS, data) <==> k in data
  {
  }

  /** The two gates part on falsy values: a request that blanks `name` and
      clears `isVerified`, `totalPost` and `image` keeps the old name but
      stores false, 0 and "". */
  lemma FalsyValuesUnderBothGates(d: Doc)
    ensures var r := SetFields(d, UpdateObject(USER_FIELDS,
      map[Name := Str(""), IsVerified := Bool(false), TotalPost := Num(0), Image := Str("")]));
      && Lookup(r, Name) == Lookup(d, Name)
      && Lookup(r, IsVerified) == Some(Bool(false))
      && Lookup(r, TotalPost) == Some(Num(0))
      && Lookup(r, Image) == Some(Str(""))
  {
    var data := map[Name := Str(""), IsVerified := Bool(false), TotalPost := Num(0), Image := Str("")];
    SetUpdateField(d, USER_FIELDS, data, Name);
    SetUpdateField(d, USER_FIELDS, data, IsVerified);
    SetUpdateField(d, USER_FIELDS, data, TotalPost);
    SetUpdateField(d, USER_FIELDS, data, Image);
  }
}
