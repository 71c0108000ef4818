/** The nlohmann::json values the core builds and reads, and the handful of
    accessors it uses on them. A JSON object is kept as its members in
    iteration order; nlohmann's default object type is a std::map, so the
    objects the core builds list their members in ascending key order. */
module Json {
  import opened Wrappers
  import opened Text
  import opened Glm

  datatype Json =
    | JNull
    | JBool(b: bool)
    /** number_integer: a 64-bit signed integer. */
    | JInt(i: int)
    /** number_float holding a value converted from a C++ float. */
    | JFloat(f: Float)
    | JString(s: CppString)
    | JArray(items: seq<Json>)
    | JObject(members: seq<(CppString, Json)>)

  datatype JsonError =
    /** const operator[] with a key the object lacks: undefined behaviour
        (an assertion inside nlohmann), treated as an error here. */
    | MissingKey
    /** const operator[] past the end of an array: undefined behaviour. */
    | IndexOutOfRange
    /** A thrown type_error: operator[] on a value of the wrong kind, or a
        conversion of a value that is not of the requested kind. */
    | TypeError
    /** A conversion between integer and floating-point numbers, which the
        model does not compute. */
    | NotModelled

  /** The value of the first member named key. */
  function Lookup(ms: seq<(CppString, Json)>, key: CppString): (r: Option<Json>)
    ensures r.Some? <==> exists i :: 0 <= i < |ms| && ms[i].0 == key
    ensures r.Some? ==> (key, r.value) in ms
  {
    if ms == [] then None
    else if ms[0].0 == key then Some(ms[0].1)
    else
      var r := Lookup(ms[1..], key);
      assert forall i :: 1 <= i < |ms| ==> ms[i] == ms[1..][i - 1];
      r
  }

  /** `j[key]` on a const json. */
  function Member(j: Json, key: CppString): (r: Result<Json, JsonError>)
    ensures r.Ok? <==> j.JObject? && Lookup(j.members, key).Some?
    ensures r.Err? ==> (r.error == MissingKey <==> j.JObject?)
    ensures r.Err? ==> r.error in {MissingKey, TypeError}
  {
    match j
    case JObject(ms) =>
      var v := Lookup(ms, key);
      if v.Some? then Ok(v.value) else Err(MissingKey)
    case _ => Err(TypeError)
  }

  /** `j[i]` on a const json. */
  function Element(j: Json, i: nat): (r: Result<Json, JsonError>)
    ensures r.Ok? <==> j.JArray? && i < |j.items|
    ensures r.Ok? ==> r.value == j.items[i]
    ensures r.Err? ==> (r.error == IndexOutOfRange <==> j.JArray?)
  {
    match j
    case JArray(xs) => if i < |xs| then Ok(xs[i]) else Err(IndexOutOfRange)
    case _ => Err(TypeError)
  }

  /** `v[i]` on a non-const copy: a null becomes an array and an array is
      padded with nulls up to index i, so a missing element reads as null. */
  function ElementOfCopy(j: Json, i: nat): (r: Result<Json, JsonError>)
    ensures r.Ok? <==> j.JArray? || j.JNull?
    ensures r.Ok? && j.JArray? && i < |j.items| ==> r.value == j.items[i]
    ensures r.Ok? && !(j.JArray? && i < |j.items|) ==> r.value == JNull
    ensures r.Err? ==> r.error == TypeError
  {
    match j
    case JArray(xs) => if i < |xs| then Ok(xs[i]) else Ok(JNull)
    case JNull => Ok(JNull)
    case _ => Err(TypeError)
  }

  /** `j.size()`. */
  function Size(j: Json): (n: nat)
    ensures j.JArray? ==> n == |j.items|
    ensures j.JObject? ==> n == |j.members|
    ensures j.JNull? ==> n == 0
    ensures !(j.JArray? || j.JObject? || j.JNull?) ==> n == 1
  {
    match j
    case JNull => 0
    case JArray(xs) => |xs|
    case JObject(ms) => |ms|
    case _ => 1
  }

  /** The values a range-for over j visits: an object's member values, an
      array's items, nothing for null, and a primitive itself. */
  function Items(j: Json): (r: seq<Json>)
    ensures j.JObject? ==> |r| == |j.members| && forall i :: 0 <= i < |r| ==> r[i] == j.members[i].1
    ensures j.JArray? ==> r == j.items
    ensures j.JNull? ==> r == []
    ensures !(j.JArray? || j.JObject? || j.JNull?) ==> r == [j]
  {
    match j
    case JNull => []
    case JArray(xs) => xs
    case JObject(ms) => seq(|ms|, i requires 0 <= i < |ms| => ms[i].1)
    case _ => [j]
  }

  /** std::string's operator<: lexicographic on character codes. */
  predicate KeyLess(a: CppString, b: CppString) {
    if a == [] then b != []
    else if b == [] then false
    else if a[0] != b[0] then a[0] < b[0]
    else KeyLess(a[1..], b[1..])
  }

  /** Strictly ascending keys, as std::map keeps them. */
  predicate Ascending(ks: seq<CppString>) {
    forall a, b :: 0 <= a < b < |ks| ==> KeyLess(ks[a], ks[b])
  }

  lemma {:induction false} KeyLessIrreflexive(a: CppString)
    ensures !KeyLess(a, a)
  {
    if a != [] {
      KeyLessIrreflexive(a[1..]);
    }
  }

  lemma {:induction false} KeyLessTotal(a: CppString, b: CppString)
    ensures a == b || KeyLess(a, b) || KeyLess(b, a)
    ensures !(KeyLess(a, b) && KeyLess(b, a))
  {
    if a != [] && b != [] && a[0] == b[0] {
      KeyLessTotal(a[1..], b[1..]);
      if a[1..] == b[1..] {
        assert a == [a[0]] + a[1..] && b == [b[0]] + b[1..];
      }
    }
  }

  /** Keys that agree up to position n and differ there are ordered by
      their characters at n. */
  lemma {:induction false} KeyLessAt(a: CppString, b: CppString, n: nat)
    requires n < |a| && n < |b| && a[n] < b[n]
    requires forall t :: 0 <= t < n ==> a[t] == b[t]
    ensures KeyLess(a, b)
  {
    if n > 0 {
      assert a[0] == b[0];
      KeyLessAt(a[1..], b[1..], n - 1);
    }
  }

  lemma {:induction false} KeyLessTransitive(a: CppString, b: CppString, c: CppString)
    requires KeyLess(a, b) && KeyLess(b, c)
    ensures KeyLess(a, c)
  {
    if a != [] && a[0] == b[0] && b[0] == c[0] {
      KeyLessTransitive(a[1..], b[1..], c[1..]);
    }
  }

  /** Keys each smaller than the next ascend throughout. */
  lemma {:induction false} AscendingByNeighbours(ks: seq<CppString>)
    requires forall a :: 0 <= a < |ks| - 1 ==> KeyLess(ks[a], ks[a + 1])
    ensures Ascending(ks)
  {
    forall a, b | 0 <= a < b < |ks| ensures KeyLess(ks[a], ks[b]) {
      var c := a + 1;
      while c < b
        invariant a < c <= b && KeyLess(ks[a], ks[c])
      {
        KeyLessTransitive(ks[a], ks[c], ks[c + 1]);
        c := c + 1;
      }
    }
  }

  /** The member list after std::map's insert-or-assign of (key, v): the
      value of an existing key is replaced in place, a new key goes in
      before the first larger one. */
  function Insert(ms: seq<(CppString, Json)>, key: CppString, v: Json): seq<(CppString, Json)> {
    if ms == [] then [(key, v)]
    else if ms[0].0 == key then [(key, v)] + ms[1..]
    else if KeyLess(key, ms[0].0) then [(key, v)] + ms
    else [ms[0]] + Insert(ms[1..], key, v)
  }

  /** After the insert, key maps to v and every other key to what it
      mapped to before. */
  lemma {:induction false} InsertLookup(ms: seq<(CppString, Json)>, key: CppString, v: Json)
    ensures Lookup(Insert(ms, key, v), key) == Some(v)
    ensures forall k :: k != key ==> Lookup(Insert(ms, key, v), k) == Lookup(ms, k)
  {
    if ms != [] && ms[0].0 != key && !KeyLess(key, ms[0].0) {
      InsertLookup(ms[1..], key, v);
      var t := Insert(ms[1..], key, v);
      assert ([ms[0]] + t)[1..] == t;
    }
  }

  /** Inserting a key that falls between a prefix and the rest. */
  lemma {:induction false} InsertAt(pre: seq<(CppString, Json)>, post: seq<(CppString, Json)>, key: CppString, v: Json)
    requires forall i :: 0 <= i < |pre| ==> KeyLess(pre[i].0, key)
    requires post != [] ==> KeyLess(key, post[0].0)
    ensures Insert(pre + post, key, v) == pre + [(key, v)] + post
  {
    if pre == [] {
      assert pre + post == post;
      if post != [] {
        KeyLessTotal(key, post[0].0);
      }
    } else {
      KeyLessTotal(pre[0].0, key);
      assert (pre + post)[0] == pre[0];
      assert (pre + post)[1..] == pre[1..] + post;
      InsertAt(pre[1..], post, key, v);
      assert pre + [(key, v)] + post == [pre[0]] + (pre[1..] + [(key, v)] + post);
    }
  }

  /** Assigning to a key already present replaces its value in place. */
  lemma {:induction false} InsertReplace(pre: seq<(CppString, Json)>, old_v: Json, post: seq<(CppString, Json)>, key: CppString, v: Json)
    requires forall i :: 0 <= i < |pre| ==> KeyLess(pre[i].0, key)
    ensures Insert(pre + [(key, old_v)] + post, key, v) == pre + [(key, v)] + post
  {
    if pre == [] {
      assert pre + [(key, old_v)] + post == [(key, old_v)] + post;
    } else {
      KeyLessTotal(pre[0].0, key);
      var ms := pre + [(key, old_v)] + post;
      assert ms[0] == pre[0];
      assert ms[1..] == pre[1..] + [(key, old_v)] + post;
      InsertReplace(pre[1..], old_v, post, key, v);
      assert pre + [(key, v)] + post == [pre[0]] + (pre[1..] + [(key, v)] + post);
    }
  }

  /** `j[key] = v` on a non-const json: a null becomes an object first. */
  function Assign(j: Json, key: CppString, v: Json): (r: Result<Json, JsonError>)
    ensures r.Ok? <==> j.JObject? || j.JNull?
    ensures r.Ok? ==> r.value.JObject?
    ensures r.Ok? && j.JNull? ==> r.value.members == [(key, v)]
    ensures r.Err? ==> r.error == TypeError
  {
    match j
    case JNull => Ok(JObject([(key, v)]))
    case JObject(ms) => Ok(JObject(Insert(ms, key, v)))
    case _ => Err(TypeError)
  }

  /** Reading back an assigned member gives the value assigned, and the
      other members are untouched. */
  lemma AssignMember(j: Json, key: CppString, v: Json)
    requires j.JObject? || j.JNull?
    ensures Member(Assign(j, key, v).value, key) == Ok(v)
    ensures j.JObject? ==> forall k :: k != key ==> Member(Assign(j, key, v).value, k) == Member(j, k)
  {
    if j.JObject? {
      InsertLookup(j.members, key, v);
    }
  }

  /** `j[key]` on a non-const json used as an lvalue: a missing key reads as
      the null the source would insert. */
  function MemberOfCopy(j: Json, key: CppString): (r: Result<Json, JsonError>)
    ensures r.Ok? <==> j.JObject? || j.JNull?
    ensures r.Ok? && Member(j, key).Ok? ==> r.value == Member(j, key).value
    ensures r.Ok? && Member(j, key).Err? ==> r.value == JNull
    ensures r.Err? ==> r.error == TypeError
  {
    match j
    case JNull => Ok(JNull)
    case JObject(ms) => var m := Lookup(ms, key); Ok(if m.Some? then m.value else JNull)
    case _ => Err(TypeError)
  }

  /** `j[outer][key] = v` on a non-const json. */
  function AssignIn(j: Json, outer: CppString, key: CppString, v: Json): (r: Result<Json, JsonError>)
    ensures r.Ok? <==> (j.JObject? || j.JNull?) && (MemberOfCopy(j, outer).value.JObject? || MemberOfCopy(j, outer).value.JNull?)
  {
    var u :- MemberOfCopy(j, outer);
    var w :- Assign(u, key, v);
    Assign(j, outer, w)
  }

  /** `j.push_back(v)`: a null turns into an array first. */
  function PushBack(j: Json, v: Json): (r: Result<Json, JsonError>)
    ensures r.Ok? <==> j.JArray? || j.JNull?
    ensures j.JArray? ==> r == Ok(JArray(j.items + [v]))
    ensures j.JNull? ==> r == Ok(JArray([v]))
    ensures r.Err? ==> r.error == TypeError
  {
    match j
    case JNull => Ok(JArray([v]))
    case JArray(xs) => Ok(JArray(xs + [v]))
    case _ => Err(TypeError)
  }

  /** `get<bool>()`: only a boolean converts. */
  function GetBool(j: Json): (r: Result<bool, JsonError>)
    ensures r.Ok? <==> j.JBool?
    ensures r.Ok? ==> r.value == j.b
    ensures r.Err? ==> r.error == TypeError
  {
    if j.JBool? then Ok(j.b) else Err(TypeError)
  }

  /** `get<int>()`: an integer is truncated to 32 bits, a boolean gives 0 or
      1; any other kind is a type_error. */
  function GetInt(j: Json): (r: Result<Int32, JsonError>)
    ensures j.JInt? ==> r == Ok(WrapInt32(j.i))
    ensures j.JBool? ==> r == Ok(if j.b then 1 else 0)
    ensures j.JFloat? ==> r == Err(NotModelled)
    ensures !(j.JInt? || j.JBool? || j.JFloat?) ==> r == Err(TypeError)
  {
    match j
    case JInt(i) => Ok(WrapInt32(i))
    case JBool(b) => Ok(if b then 1 else 0)
    case JFloat(_) => Err(NotModelled)
    case _ => Err(TypeError)
  }

  /** `get<float>()`: a float comes back unchanged, a boolean gives 0.0f or
      1.0f; any other kind is a type_error. */
  function GetFloat(j: Json): (r: Result<Float, JsonError>)
    ensures j.JFloat? ==> r == Ok(j.f)
    ensures j.JBool? ==> r == Ok(if j.b then ONE else ZERO)
    ensures j.JInt? ==> r == Err(NotModelled)
    ensures !(j.JInt? || j.JBool? || j.JFloat?) ==> r == Err(TypeError)
  {
    match j
    case JFloat(f) => Ok(f)
    case JBool(b) => Ok(if b then ONE else ZERO)
    case JInt(_) => Err(NotModelled)
    case _ => Err(TypeError)
  }

  /** `get<std::string>()`. */
  function GetString(j: Json): (r: Result<CppString, JsonError>)
    ensures r.Ok? <==> j.JString?
    ensures r.Ok? ==> r.value == j.s
    ensures r.Err? ==> r.error == TypeError
  {
    if j.JString? then Ok(j.s) else Err(TypeError)
  }

  /** The array an initializer list of floats builds. */
  function FloatArray(xs: seq<Float>): (j: Json)
    ensures j.JArray? && |j.items| == |xs|
    ensures forall i :: 0 <= i < |xs| ==> j.items[i] == JFloat(xs[i])
  {
    JArray(seq(|xs|, i requires 0 <= i < |xs| => JFloat(xs[i])))
  }

  /** `j[t]` converted with get<float>: through a non-const copy of j when
      viaCopy holds, else on a const json. */
  function ReadFloat(j: Json, t: nat, viaCopy: bool): (r: Result<Float, JsonError>)
    ensures !viaCopy && j.JArray? && t < |j.items| ==> r == GetFloat(j.items[t])
    ensures !viaCopy && j.JArray? && t >= |j.items| ==> r == Err(IndexOutOfRange)
    ensures viaCopy && j.JArray? && t < |j.items| ==> r == GetFloat(j.items[t])
    ensures viaCopy && (j.JNull? || (j.JArray? && t >= |j.items|)) ==> r == Err(TypeError)
    ensures !j.JArray? && !(viaCopy && j.JNull?) ==> r == Err(TypeError)
  {
    var e :- if viaCopy then ElementOfCopy(j, t) else Element(j, t);
    GetFloat(e)
  }

  /** Entries 0 .. n-1 of j read with ReadFloat in index order, as the
      source's loops read them: the first failure is the error. */
  function ReadFloats(j: Json, n: nat, viaCopy: bool): (r: Result<seq<Float>, JsonError>)
    ensures r.Ok? ==> |r.value| == n
    ensures r.Ok? ==> forall t :: 0 <= t < n ==> ReadFloat(j, t, viaCopy) == Ok(r.value[t])
  {
    if n == 0 then Ok([])
    else
      var xs :- ReadFloats(j, n - 1, viaCopy);
      var x :- ReadFloat(j, n - 1, viaCopy);
      Ok(xs + [x])
  }

  /** The loop goes on while the reads succeed ... */
  lemma ReadFloatsNext(j: Json, n: nat, viaCopy: bool)
    requires ReadFloats(j, n, viaCopy).Ok? && ReadFloat(j, n, viaCopy).Ok?
    ensures ReadFloats(j, n + 1, viaCopy).Ok?
  {
  }

  /** ... and stops with the first failing read's error. */
  lemma {:induction false} ReadFloatsFirstError(j: Json, t: nat, n: nat, viaCopy: bool)
    requires t < n && ReadFloats(j, t, viaCopy).Ok? && ReadFloat(j, t, viaCopy).Err?
    ensures ReadFloats(j, n, viaCopy) == Err(ReadFloat(j, t, viaCopy).error)
  {
    if t < n - 1 {
      ReadFloatsFirstError(j, t, n - 1, viaCopy);
    }
  }

  /** How many of the entries 0 .. limit-1 are read before the first
      failing one: limit when they all read. */
  function ReadCount(j: Json, limit: nat, viaCopy: bool): (t: nat)
    ensures t <= limit && ReadFloats(j, t, viaCopy).Ok?
    ensures t < limit ==> ReadFloat(j, t, viaCopy).Err? && ReadFloats(j, limit, viaCopy) == Err(ReadFloat(j, t, viaCopy).error)
    ensures t == limit <==> ReadFloats(j, limit, viaCopy).Ok?
  {
    if limit == 0 then 0
    else
      var t := ReadCount(j, limit - 1, viaCopy);
      if t < limit - 1 then
        ReadFloatsFirstError(j, t, limit, viaCopy);
        t
      else if ReadFloat(j, limit - 1, viaCopy).Ok? then limit
      else limit - 1
  }

  /** The first failing read at t < limit is where the reads stop. */
  lemma ReadCountAt(j: Json, t: nat, limit: nat, viaCopy: bool)
    requires t < limit && ReadFloats(j, t, viaCopy).Ok? && ReadFloat(j, t, viaCopy).Err?
    ensures ReadCount(j, limit, viaCopy) == t
  {
  }

  /** Reading back an array of floats gives the floats, by either route. */
  lemma {:induction false} FloatArrayRoundTrip(xs: seq<Float>, n: nat, viaCopy: bool)
    requires n <= |xs|
    ensures ReadFloats(FloatArray(xs), n, viaCopy) == Ok(xs[..n])
  {
    if n > 0 {
      FloatArrayRoundTrip(xs, n - 1, viaCopy);
      assert xs[..n] == xs[..n - 1] + [xs[n - 1]];
    }
  }

  /** A too-short array fails at its end: through a copy as a type error
      (the padding null does not convert), directly as undefined
      behaviour. */
  lemma {:induction false} ShortArrayFails(items: seq<Json>, n: nat, viaCopy: bool)
    requires |items| < n
    requires forall t :: 0 <= t < |items| ==> items[t].JFloat?
    ensures ReadFloats(JArray(items), n, viaCopy) == Err(if viaCopy then TypeError else IndexOutOfRange)
  {
    var j := JArray(items);
    if n - 1 > |items| {
      ShortArrayFails(items, n - 1, viaCopy);
    } else {
      FloatItems(items, |items|, viaCopy);
    }
  }

  lemma {:induction false} FloatItems(items: seq<Json>, n: nat, viaCopy: bool)
    requires n <= |items|
    requires forall t :: 0 <= t < |items| ==> items[t].JFloat?
    ensures ReadFloats(JArray(items), n, viaCopy).Ok?
  {
    if n > 0 {
      FloatItems(items, n - 1, viaCopy);
    }
  }
}
