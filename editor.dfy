/** The scene editor of main.cpp: the list of models with the list of their
    menu names, the selected entry, the naming of a new object, deleting the
    selected object, and the JSON form of a model's transform. */
module Editor {
  import opened Wrappers
  import opened Text
  import opened Glm
  import opened Json
  import opened Seqs
  import opened Models

  // ---------------------------------------------------------------------
  // Unique names

  /** The k-th alternative name: defaultName + std::to_string(k). */
  function Candidate(d: CppString, k: nat): (r: CppString)
    ensures |r| > |d| && r[..|d|] == d && r[|d|..] == DecimalString(k)
  {
    d + DecimalString(k)
  }

  /** n is d followed by one or more decimal digits. */
  predicate IsCandidate(d: CppString, n: CppString) {
    |n| > |d| && n[..|d|] == d && forall i :: |d| <= i < |n| ==> '0' <= n[i] <= '9'
  }

  /** The number the digits after d denote. */
  function SuffixValue(d: CppString, n: CppString): nat
    requires IsCandidate(d, n)
  {
    var t := n[|d|..];
    assert forall i :: 0 <= i < |t| ==> t[i] == n[|d| + i];
    DecimalValue(t)
  }

  /** Candidate k is a candidate whose suffix denotes k. */
  lemma CandidateValue(d: CppString, k: nat)
    ensures IsCandidate(d, Candidate(d, k)) && SuffixValue(d, Candidate(d, k)) == k
  {
    DecimalRoundTrip(k);
  }

  /** Different k give different candidates. */
  lemma CandidateInjective(d: CppString, a: nat, b: nat)
    requires Candidate(d, a) == Candidate(d, b)
    ensures a == b
  {
    DecimalInjective(a, b);
  }

  /** One more than the largest suffix among the names that are candidates
      of d (0 when there are none). */
  function MaxSuffix(names: seq<CppString>, d: CppString): (m: nat)
    ensures forall i :: 0 <= i < |names| && IsCandidate(d, names[i]) ==> SuffixValue(d, names[i]) < m
  {
    if names == [] then 0
    else
      var rest := MaxSuffix(names[1..], d);
      var v := if IsCandidate(d, names[0]) then SuffixValue(d, names[0]) + 1 else 0;
      assert forall i :: 1 <= i < |names| ==> names[i] == names[1..][i - 1];
      if v > rest then v else rest
  }

  /** Only finitely many candidates are taken: each taken one lies below
      MaxSuffix. */
  lemma TakenBelowMax(names: seq<CppString>, d: CppString, k: nat)
    requires Candidate(d, k) in names
    ensures k < MaxSuffix(names, d)
  {
    var i :| 0 <= i < |names| && names[i] == Candidate(d, k);
    CandidateValue(d, k);
  }

  /** The first candidate from c on that no name takes. */
  function FirstFree(names: seq<CppString>, d: CppString, c: nat): (k: nat)
    ensures c <= k && Candidate(d, k) !in names
    ensures forall j :: c <= j < k ==> Candidate(d, j) in names
    decreases MaxSuffix(names, d) - c
  {
    if Candidate(d, c) !in names then c
    else
      TakenBelowMax(names, d, c);
      FirstFree(names, d, c + 1)
  }

  /** The name GenerateUniqueName returns, defined by what it promises:
      defaultName itself when no model has it, otherwise defaultName
      followed by the smallest k whose name is free. */
  function UniqueName(names: seq<CppString>, d: CppString): (r: CppString)
    ensures r !in names
    ensures d !in names ==> r == d
    ensures d in names ==> exists k: nat :: r == Candidate(d, k) && forall j: nat :: j < k ==> Candidate(d, j) in names
  {
    if d !in names then d else Candidate(d, FirstFree(names, d, 0))
  }

  /** The free candidate with all smaller ones taken is the one FirstFree
      finds. */
  lemma FirstFreeUnique(names: seq<CppString>, d: CppString, c: nat, k: nat)
    requires c <= k && Candidate(d, k) !in names
    requires forall j :: c <= j < k ==> Candidate(d, j) in names
    ensures FirstFree(names, d, c) == k
  {
  }

  /** No two entries of the menu carry the same name. */
  predicate DistinctNames(names: seq<CppString>) {
    forall i, j :: 0 <= i < j < |names| ==> names[i] != names[j]
  }

  /** Appending the unique name keeps the names distinct. */
  lemma UniqueNameKeepsDistinct(names: seq<CppString>, d: CppString)
    requires DistinctNames(names)
    ensures DistinctNames(names + [UniqueName(names, d)])
  {
    var r := UniqueName(names, d);
    var s := names + [r];
    forall i, j | 0 <= i < j < |s| ensures s[i] != s[j] {
      if j == |names| {
        assert s[i] == names[i];
      }
    }
  }

  /** Erasing an entry keeps the names distinct. */
  lemma RemovedKeepsDistinct(names: seq<CppString>, id: nat)
    requires id < |names| && DistinctNames(names)
    ensures DistinctNames(Removed(names, id))
  {
    var r := Removed(names, id);
    forall i, j | 0 <= i < j < |r| ensures r[i] != r[j] {
      var i' := if i < id then i else i + 1;
      var j' := if j < id then j else j + 1;
      assert r[i] == names[i'] && r[j] == names[j'];
    }
  }

  // ---------------------------------------------------------------------
  // The selection

  /** selectedId after the selected entry was erased from a list that now
      holds size entries: -1 for an empty list, else
      std::min(selectedId, size - 1). */
  function ClampSelection(selected: nat, size: nat): (r: int)
    ensures r == -1 <==> size == 0
    ensures size > 0 ==> 0 <= r < size && r <= selected
    ensures selected < size ==> r == selected
  {
    if size == 0 then -1
    else if size - 1 < selected then size - 1
    else selected
  }

  /** After deleting entry id, the selection moves to the entry that
      followed it, or to the new last entry when the last one went; it is
      -1 only when nothing is left. */
  lemma SelectionAfterDelete<T>(s: seq<T>, id: nat)
    requires id < |s|
    ensures var c := ClampSelection(id, |s| - 1);
      (c == -1 <==> |s| == 1) &&
      (c >= 0 ==> Removed(s, id)[c] == if id + 1 < |s| then s[id + 1] else s[id - 1])
  {
  }

  /** The editor's global state: the models, their menu names and the
      selected entry (-1 for none). */
  class Scene {
    var models: seq<Model>
    var modelNames: seq<CppString>
    var selectedId: int

    /** The state at start-up. */
    constructor ()
      ensures models == [] && modelNames == [] && selectedId == -1
    {
      models := [];
      modelNames := [];
      selectedId := -1;
    }

    /** Entry i of the menu names model i. */
    predicate Consistent()
      reads this
    {
      |models| == |modelNames|
    }

    /** selectedId is -1 or the index of a model. */
    predicate ValidSelection()
      reads this
    {
      selectedId == -1 || 0 <= selectedId < |models|
    }

    /** GenerateUniqueName: tries defaultName, then defaultName0,
        defaultName1, ... until no menu entry has the name. */
    method GenerateUniqueName(defaultName: CppString) returns (newName: CppString)
      ensures newName == UniqueName(modelNames, defaultName)
    {
      var cnt: nat := 0;
      newName := defaultName;
      while newName in modelNames
        invariant cnt == 0 ==> newName == defaultName
        invariant cnt > 0 ==> defaultName in modelNames && newName == Candidate(defaultName, cnt - 1)
        invariant forall j :: 0 <= j < cnt - 1 ==> Candidate(defaultName, j) in modelNames
        invariant cnt <= MaxSuffix(modelNames, defaultName) + 1
        decreases MaxSuffix(modelNames, defaultName) + 1 - cnt
      {
        if cnt > 0 {
          TakenBelowMax(modelNames, defaultName, cnt - 1);
        }
        newName := Candidate(defaultName, cnt);
        cnt := cnt + 1;
      }
      if cnt > 0 {
        FirstFreeUnique(modelNames, defaultName, 0, cnt - 1);
      }
    }

    /** GenerateObject, given the loaded model: the model is appended, and
        its menu name is made unique among the names already there. */
    method GenerateObject(model: Model, menuName: CppString)
      modifies this`models, this`modelNames
      ensures models == old(models) + [model]
      ensures modelNames == old(modelNames) + [UniqueName(old(modelNames), menuName)]
      ensures old(Consistent()) ==> Consistent()
      ensures old(DistinctNames(modelNames)) ==> DistinctNames(modelNames)
    {
      models := models + [model];
      var uniqueName := GenerateUniqueName(menuName);
      if DistinctNames(modelNames) {
        UniqueNameKeepsDistinct(modelNames, menuName);
      }
      modelNames := modelNames + [uniqueName];
    }

    /** DeleteObject: erases entry id from both lists; the name argument is
        not used. */
    method DeleteObject(name: CppString, id: nat)
      requires id < |models| && id < |modelNames|
      modifies this`models, this`modelNames
      ensures models == Removed(old(models), id) && modelNames == Removed(old(modelNames), id)
      ensures old(Consistent()) ==> Consistent()
      ensures old(DistinctNames(modelNames)) ==> DistinctNames(modelNames)
    {
      if DistinctNames(modelNames) {
        RemovedKeepsDistinct(modelNames, id);
      }
      models := Removed(models, id);
      modelNames := Removed(modelNames, id);
    }

    /** Picking entry i in the "Select Model" combo. */
    method Select(i: nat)
      requires i < |modelNames|
      modifies this`selectedId
      ensures selectedId == i
      ensures Consistent() ==> ValidSelection()
    {
      selectedId := i;
    }

    /** The Delete button: shown only while selectedId indexes a model; it
        deletes that model and its name, then moves the selection back
        into range. */
    method DeleteSelected()
      requires 0 <= selectedId < |models| ==> selectedId < |modelNames|
      modifies this`models, this`modelNames, this`selectedId
      ensures var sel := old(selectedId);
        if 0 <= sel < |old(models)| then
          models == Removed(old(models), sel) && modelNames == Removed(old(modelNames), sel) &&
          selectedId == ClampSelection(sel, |models|)
        else
          models == old(models) && modelNames == old(modelNames) && selectedId == sel
      ensures 0 <= old(selectedId) < |old(models)| ==> ValidSelection()
      ensures old(Consistent()) ==> Consistent()
    {
      if 0 <= selectedId < |models| {
        DeleteObject(modelNames[selectedId], selectedId);
        if |models| == 0 {
          selectedId := -1;
        } else {
          selectedId := if |models| - 1 < selectedId then |models| - 1 else selectedId;
        }
      }
    }
  }

  // ---------------------------------------------------------------------
  // The transform as JSON

  const POSITION_KEY: CppString := "position"
  const ROTATION_KEY: CppString := "rotation"
  const SCALE_KEY: CppString := "scale"

  lemma TransformKeysDistinct()
    ensures POSITION_KEY != ROTATION_KEY && ROTATION_KEY != SCALE_KEY && POSITION_KEY != SCALE_KEY
  {
    assert POSITION_KEY[0] == 'p' && ROTATION_KEY[0] == 'r' && SCALE_KEY[0] == 's';
  }

  /** A model's position, rotation and scale. */
  datatype Transform = Transform(position: Vec3, rotation: Vec3, scale: Vec3)

  /** `{ v.x, v.y, v.z }` as a JSON array. */
  function Vec3Json(v: Vec3): Json {
    FloatArray([v.x, v.y, v.z])
  }

  /** `j[ka] = a; j[kb] = b; j[kc] = c;` on a fresh (null) json. */
  function Assigned3(ka: CppString, a: Json, kb: CppString, b: Json, kc: CppString, c: Json): Json {
    var j1 := Assign(JNull, ka, a).value;
    var j2 := Assign(j1, kb, b).value;
    Assign(j2, kc, c).value
  }

  /** Three assignments under distinct keys: each key reads back its value
      and no other key is present. */
  lemma Assigned3Members(ka: CppString, a: Json, kb: CppString, b: Json, kc: CppString, c: Json)
    requires ka != kb && kb != kc && ka != kc
    ensures var j := Assigned3(ka, a, kb, b, kc, c);
      j.JObject? && Member(j, ka) == Ok(a) && Member(j, kb) == Ok(b) && Member(j, kc) == Ok(c) &&
      forall k :: k != ka && k != kb && k != kc ==> Member(j, k) == Err(MissingKey)
  {
    var j1 := Assign(JNull, ka, a).value;
    var j2 := Assign(j1, kb, b).value;
    AssignMember(JNull, ka, a);
    AssignMember(j1, kb, b);
    AssignMember(j2, kc, c);
  }

  /** serializeModel on a transform: an object holding the three vectors
      under their keys and nothing else. */
  function TransformJson(t: Transform): (j: Json)
    ensures j.JObject?
    ensures Member(j, POSITION_KEY) == Ok(Vec3Json(t.position))
    ensures Member(j, ROTATION_KEY) == Ok(Vec3Json(t.rotation))
    ensures Member(j, SCALE_KEY) == Ok(Vec3Json(t.scale))
    ensures forall k :: k != POSITION_KEY && k != ROTATION_KEY && k != SCALE_KEY ==> Member(j, k) == Err(MissingKey)
  {
    TransformKeysDistinct();
    Assigned3Members(POSITION_KEY, Vec3Json(t.position), ROTATION_KEY, Vec3Json(t.rotation), SCALE_KEY, Vec3Json(t.scale));
    Assigned3(POSITION_KEY, Vec3Json(t.position), ROTATION_KEY, Vec3Json(t.rotation), SCALE_KEY, Vec3Json(t.scale))
  }

  /** serializeModel: what deserializeModel reads back from it is the
      model's own transform. */
  function SerializeModel(model: Model): (j: Json)
    reads model
    ensures ReadTransform(j) == Ok(Transform(model.position, model.rotation, model.scale))
  {
    var t := Transform(model.position, model.rotation, model.scale);
    TransformRoundTrip(t);
    TransformJson(t)
  }

  /** `glm::vec3(j[key][0], j[key][1], j[key][2])` on a const json, the
      entries converted in index order. */
  function ReadVec3(j: Json, key: CppString): (r: Result<Vec3, JsonError>)
    ensures r.Ok? ==> Member(j, key).Ok?
    ensures Member(j, key).Err? ==> r == Err(Member(j, key).error)
    ensures r.Ok? ==> var v := Member(j, key).value;
      ReadFloat(v, 0, false) == Ok(r.value.x) && ReadFloat(v, 1, false) == Ok(r.value.y) &&
      ReadFloat(v, 2, false) == Ok(r.value.z)
  {
    var v :- Member(j, key);
    var xs :- ReadFloats(v, 3, false);
    Ok(Vec3(xs[0], xs[1], xs[2]))
  }

  /** The transform deserializeModel reads: position, rotation and scale in
      turn, the first failure being the error. */
  function ReadTransform(j: Json): (r: Result<Transform, JsonError>)
    ensures r.Ok? <==> ReadVec3(j, POSITION_KEY).Ok? && ReadVec3(j, ROTATION_KEY).Ok? && ReadVec3(j, SCALE_KEY).Ok?
    ensures r.Ok? ==> r.value == Transform(ReadVec3(j, POSITION_KEY).value, ReadVec3(j, ROTATION_KEY).value, ReadVec3(j, SCALE_KEY).value)
  {
    var p :- ReadVec3(j, POSITION_KEY);
    var r :- ReadVec3(j, ROTATION_KEY);
    var s :- ReadVec3(j, SCALE_KEY);
    Ok(Transform(p, r, s))
  }

  /** A vec3 written as a float array reads back unchanged. */
  lemma Vec3JsonRoundTrip(v: Vec3, j: Json, key: CppString)
    requires Member(j, key) == Ok(Vec3Json(v))
    ensures ReadVec3(j, key) == Ok(v)
  {
    FloatArrayRoundTrip([v.x, v.y, v.z], 3, false);
  }

  /** deserializeModel(serializeModel(m)) has m's position, rotation and
      scale, and the JSON holds no other key. */
  lemma TransformRoundTrip(t: Transform)
    ensures ReadTransform(TransformJson(t)) == Ok(t)
    ensures forall k :: k != POSITION_KEY && k != ROTATION_KEY && k != SCALE_KEY ==>
      Member(TransformJson(t), k) == Err(MissingKey)
  {
    var j := TransformJson(t);
    TransformKeysDistinct();
    Assigned3Members(POSITION_KEY, Vec3Json(t.position), ROTATION_KEY, Vec3Json(t.rotation), SCALE_KEY, Vec3Json(t.scale));
    Vec3JsonRoundTrip(t.position, j, POSITION_KEY);
    Vec3JsonRoundTrip(t.rotation, j, ROTATION_KEY);
    Vec3JsonRoundTrip(t.scale, j, SCALE_KEY);
  }

  /** An object that lacks "position" is missing the first key read. */
  lemma MissingPositionRejected(j: Json)
    requires j.JObject? && Lookup(j.members, POSITION_KEY).None?
    ensures ReadTransform(j) == Err(MissingKey)
  {
  }

  /** deserializeModel, on the default-constructed model it is given: the
      three setters in turn, each fed the vec3 read under its key. A failed
      read is the exception the source throws there; the setters called
      before it have taken effect. */
  method DeserializeModel(j: Json, model: Model) returns (err: Option<JsonError>)
    modifies model`position, model`rotation, model`scale
    ensures var t := ReadTransform(j);
      if t.Ok? then err == None && model.position == t.value.position &&
        model.rotation == t.value.rotation && model.scale == t.value.scale
      else err == Some(t.error)
    ensures var p, r := ReadVec3(j, POSITION_KEY), ReadVec3(j, ROTATION_KEY);
      model.position == (if p.Ok? then p.value else old(model.position)) &&
      model.rotation == (if p.Ok? && r.Ok? then r.value else old(model.rotation)) &&
      (ReadTransform(j).Err? ==> model.scale == old(model.scale))
  {
    var p := ReadVec3(j, POSITION_KEY);
    if p.Err? {
      return Some(p.error);
    }
    model.SetPosition(p.value);
    var r := ReadVec3(j, ROTATION_KEY);
    if r.Err? {
      return Some(r.error);
    }
    model.SetRotation(r.value);
    var s := ReadVec3(j, SCALE_KEY);
    if s.Err? {
      return Some(s.error);
    }
    model.SetScale(s.value);
    err := None;
  }
}
