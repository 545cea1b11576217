/**
 Validation of response data against a small schema language, bounded to one hundred nodes, eight levels and
 ten issues.
 */
module SchemaValidation {
  import opened Prelude
  import opened Json

  const MAX_NODES := 100
  const MAX_DEPTH := 8
  const MAX_ISSUES := 10

  datatype Step = Field(name: string) | Index(i: nat)

  type Path = seq<Step>

  datatype Problem =
    | BudgetExceeded
    | WrongType(expected: string, received: string)
    | NotInEnum
    | Missing
    | PropertySchemaNotObject
    | ItemsSchemaNotObject

  datatype Issue = Issue(path: Path, problem: Problem)

  // ----- the plain meaning of a schema -----

  /** The first member of that name is this one; in an object there is no other. */
  ghost predicate IsField(members: seq<Member>, i: nat, name: string) {
    i < |members| && members[i].name == name && forall j :: 0 <= j < i ==> members[j].name != name
  }

  ghost predicate HasField(members: seq<Member>, name: string) { exists i: nat :: IsField(members, i, name) }

  ghost predicate Declares(members: seq<Member>, name: string, value: Json) {
    exists i: nat :: IsField(members, i, name) && members[i].value == value
  }

  function Whole(i: int): real { i as real }

  /** The types by the shape of the value. */
  ghost predicate HasType(value: Json, kind: string) {
    || (kind == "null" && value == Null)
    || (kind == "boolean" && exists b :: value == Bool(b))
    || (kind == "number" && exists n :: value == Num(n))
    || (kind == "integer" && exists i :: value == Num(Whole(i)))
    || (kind == "string" && exists s :: value == Str(s))
    || (kind == "array" && exists items :: value == Arr(items))
    || (kind == "object" && exists members :: value == Obj(members))
  }

  ghost predicate TypeHolds(value: Json, rule: seq<Member>) {
    forall kind :: Declares(rule, "type", Str(kind)) && kind != "" ==> HasType(value, kind)
  }

  ghost predicate EnumHolds(value: Json, rule: seq<Member>) {
    forall allowed :: Declares(rule, "enum", Arr(allowed)) ==> value in allowed
  }

  /** Every string in the list of required fields names a member. */
  ghost predicate RequiredHolds(members: seq<Member>, rule: seq<Member>) {
    forall names, name :: Declares(rule, "required", Arr(names)) && Str(name) in names ==>
      HasField(members, name)
  }

  /** A declared property that is present has an object for its schema, and conforms to it. */
  ghost predicate PropertyHolds(value: Json, p: Member)
    requires value.Obj?
    decreases value, 0
  {
    forall i: nat :: IsField(value.members, i, p.name) ==>
      p.value.Obj? && Conforms(value.members[i].value, p.value.members)
  }

  ghost predicate PropertiesHold(value: Json, rule: seq<Member>)
    requires value.Obj?
    decreases value, 1
  {
    forall properties, p :: Declares(rule, "properties", Obj(properties)) && p in properties ==> PropertyHolds(value, p)
  }

  ghost predicate ItemsHold(value: Json, rule: seq<Member>)
    requires value.Arr?
    decreases value, 0
  {
    forall schema :: Declares(rule, "items", schema) ==>
      schema.Obj? && forall i :: 0 <= i < |value.items| ==> Conforms(value.items[i], schema.members)
  }

  /** Fields are looked at when the declared type is "object", items when it is "array". */
  ghost predicate Conforms(value: Json, rule: seq<Member>)
    decreases value, 2
  {
    && TypeHolds(value, rule)
    && EnumHolds(value, rule)
    && (Declares(rule, "type", Str("object")) && value.Obj? ==>
         RequiredHolds(value.members, rule) && PropertiesHold(value, rule))
    && (Declares(rule, "type", Str("array")) && value.Arr? ==> ItemsHold(value, rule))
  }

  // ----- reading a schema object -----

  /** What the validator reads of a schema; an empty type counts as none. */
  datatype Reading = Reading(
    expected: string,
    allowed: Option<seq<Json>>,
    required: seq<string>,
    properties: seq<Member>,
    items: Option<Json>)

  function Strings(values: seq<Json>): seq<string> {
    if values == [] then [] else (if values[0].Str? then [values[0].s] else []) + Strings(values[1..])
  }

  function Read(rule: seq<Member>): Reading {
    var (kind, allowed, required) := (Get(rule, "type"), Get(rule, "enum"), Get(rule, "required"));
    var (properties, items) := (Get(rule, "properties"), Get(rule, "items"));
    Reading(
      if kind.Some? && kind.value.Str? then kind.value.s else "",
      if allowed.Some? && allowed.value.Arr? then Some(allowed.value.items) else None,
      if required.Some? && required.value.Arr? then Strings(required.value.items) else [],
      if properties.Some? && properties.value.Obj? then properties.value.members else [],
      items)
  }

  predicate MatchesJsonType(value: Json, kind: string) {
    match value
    case Null => kind == "null"
    case Arr(_) => kind == "array"
    case Obj(_) => kind == "object"
    case Num(n) => kind == "number" || (kind == "integer" && n == n.Floor as real)
    case Str(_) => kind == "string"
    case Bool(_) => kind == "boolean"
  }

  function JsonType(value: Json): string {
    match value
    case Null => "null"
    case Arr(_) => "array"
    case Obj(_) => "object"
    case Num(_) => "number"
    case Str(_) => "string"
    case Bool(_) => "boolean"
  }

  // ----- the meaning in the terms of what is read -----

  ghost predicate ConformsTo(value: Json, r: Reading) {
    && (r.expected != "" ==> MatchesJsonType(value, r.expected))
    && (r.allowed.Some? ==> value in r.allowed.value)
    && (r.expected == "object" && value.Obj? ==> FieldsConform(value, r))
    && (r.expected == "array" && value.Arr? && r.items.Some? ==>
      r.items.value.Obj? && ItemsConformFrom(value, 0, r.items.value.members))
  }

  ghost predicate ItemsConformFrom(value: Json, from: nat, rule: seq<Member>)
    requires value.Arr?
  {
    forall i: nat :: from <= i < |value.items| ==> ItemConforms(value, i, rule)
  }

  ghost predicate ItemConforms(value: Json, i: nat, rule: seq<Member>)
    requires value.Arr? && i < |value.items|
  {
    Conforms(value.items[i], rule)
  }

  /** Required fields are there, and those that are there conform to their own schemas. */
  ghost predicate FieldsConform(value: Json, r: Reading)
    requires value.Obj?
  {
    PresentFrom(value.members, r.required, 0) && PropertiesConformFrom(value, r.properties, 0)
  }

  ghost predicate PresentFrom(members: seq<Member>, required: seq<string>, from: nat) {
    forall i :: from <= i < |required| ==> Has(members, required[i])
  }

  ghost predicate PropertiesConformFrom(value: Json, properties: seq<Member>, from: nat)
    requires value.Obj?
  {
    forall i :: from <= i < |properties| ==> PropertyConforms(value, properties[i])
  }

  ghost predicate PropertyConforms(value: Json, property: Member)
    requires value.Obj?
  {
    Has(value.members, property.name) ==>
      && property.value.Obj?
      && Conforms(value.members[IndexOf(value.members, property.name)].value, property.value.members)
  }

  lemma {:induction false} IndexIsField(members: seq<Member>, name: string)
    ensures forall j :: 0 <= j < IndexOf(members, name) ==> members[j].name != name
  {
    if members != [] && members[0].name != name { IndexIsField(members[1..], name); }
  }

  lemma FieldMeans(members: seq<Member>, name: string)
    ensures forall i :: IsField(members, i, name) <==> Has(members, name) && i == IndexOf(members, name)
  {
    IndexIsField(members, name);
  }

  lemma GetMeans(members: seq<Member>, name: string)
    ensures forall value :: Declares(members, name, value) <==> Get(members, name) == Some(value)
  {
    FieldMeans(members, name);
    forall value ensures Declares(members, name, value) <==> Get(members, name) == Some(value) {
      if Get(members, name) == Some(value) { assert IsField(members, IndexOf(members, name), name); }
    }
  }

  lemma TypeMeans(value: Json, kind: string)
    ensures MatchesJsonType(value, kind) <==> HasType(value, kind)
  {
    match value
    case Num(n) =>
      if MatchesJsonType(value, "integer") { assert value == Num(Whole(n.Floor)); }
    case _ =>
  }

  /** The type that is reported of a value is one it has, and no other name but "integer" is. */
  lemma JsonTypeMeans(value: Json, kind: string)
    ensures HasType(value, kind) && kind != "integer" <==> kind == JsonType(value)
  {
    TypeMeans(value, kind);
  }

  lemma HalvesAreNoIntegers()
    ensures HasType(Num(1.5), "number") && !HasType(Num(1.5), "integer") && HasType(Num(2.0), "integer")
  {
    TypeMeans(Num(1.5), "integer");
    assert Num(2.0) == Num(Whole(2));
  }

  lemma {:induction false} StringsMean(values: seq<Json>, s: string)
    ensures s in Strings(values) <==> Str(s) in values
  {
    if values != [] { StringsMean(values[1..], s); }
  }

  lemma ReadType(value: Json, rule: seq<Member>)
    ensures TypeHolds(value, rule) <==> (Read(rule).expected != "" ==> MatchesJsonType(value, Read(rule).expected))
    ensures forall kind :: kind != "" ==> (Declares(rule, "type", Str(kind)) <==> Read(rule).expected == kind)
  {
    GetMeans(rule, "type");
    TypeMeans(value, Read(rule).expected);
  }

  lemma ReadEnum(value: Json, rule: seq<Member>)
    ensures EnumHolds(value, rule) <==> (Read(rule).allowed.Some? ==> value in Read(rule).allowed.value)
  {
    GetMeans(rule, "enum");
  }

  lemma HasMeans(members: seq<Member>, name: string)
    ensures Has(members, name) <==> HasField(members, name)
  {
    FieldMeans(members, name);
    assert Has(members, name) ==> IsField(members, IndexOf(members, name), name);
  }

  lemma ReadRequired(members: seq<Member>, rule: seq<Member>)
    ensures RequiredHolds(members, rule) <==> PresentFrom(members, Read(rule).required, 0)
  {
    GetMeans(rule, "required");
    var required := Read(rule).required;
    forall name ensures name in required <==>
      exists names :: Declares(rule, "required", Arr(names)) && Str(name) in names
    {
      var found := Get(rule, "required");
      if found.Some? && found.value.Arr? { StringsMean(found.value.items, name); }
    }
    forall name ensures Has(members, name) <==> HasField(members, name) { HasMeans(members, name); }
    assert PresentFrom(members, required, 0) <==> forall name :: name in required ==> Has(members, name);
  }

  lemma PropertyMeans(value: Json, p: Member)
    requires value.Obj?
    ensures PropertyConforms(value, p) <==> PropertyHolds(value, p)
  {
    FieldMeans(value.members, p.name);
    assert Has(value.members, p.name) ==> IsField(value.members, IndexOf(value.members, p.name), p.name);
  }

  lemma ReadProperties(value: Json, rule: seq<Member>)
    requires value.Obj?
    ensures PropertiesHold(value, rule) <==> PropertiesConformFrom(value, Read(rule).properties, 0)
  {
    GetMeans(rule, "properties");
    var properties := Read(rule).properties;
    forall p ensures p in properties <==> exists ps :: Declares(rule, "properties", Obj(ps)) && p in ps {
    }
    forall p ensures PropertyConforms(value, p) <==> PropertyHolds(value, p) { PropertyMeans(value, p); }
    assert PropertiesConformFrom(value, properties, 0) <==> forall p :: p in properties ==> PropertyConforms(value, p);
  }

  lemma ReadItems(value: Json, rule: seq<Member>)
    requires value.Arr?
    ensures ItemsHold(value, rule) <==>
      (Read(rule).items.Some? ==>
        Read(rule).items.value.Obj? && ItemsConformFrom(value, 0, Read(rule).items.value.members))
  {
    GetMeans(rule, "items");
    var items := Read(rule).items;
    if items.Some? && items.value.Obj? {
      assert forall i: nat :: i < |value.items| ==>
        (ItemConforms(value, i, items.value.members) <==> Conforms(value.items[i], items.value.members));
    }
  }

  /** What is read of a schema is all that its plain meaning depends on. */
  lemma ReadMeans(value: Json, rule: seq<Member>)
    ensures Conforms(value, rule) <==> ConformsTo(value, Read(rule))
  {
    ReadType(value, rule);
    ReadEnum(value, rule);
    if value.Obj? {
      ReadRequired(value.members, rule);
      ReadProperties(value, rule);
    }
    if value.Arr? { ReadItems(value, rule); }
  }

  // ----- the traversal without bounds -----

  /** All issues in order, the number of nodes visited, and how many levels below the first node they reach. */
  datatype Traversal = Traversal(issues: seq<Issue>, visits: nat, levels: nat)

  const NOTHING := Traversal([], 0, 0)

  function Then(a: Traversal, b: Traversal): Traversal {
    Traversal(a.issues + b.issues, a.visits + b.visits, Max(a.levels, b.levels))
  }

  function OneIssue(path: Path, problem: Problem): Traversal { Traversal([Issue(path, problem)], 0, 0) }

  function Deeper(t: Traversal): Traversal { t.(levels := t.levels + 1) }

  function MissingField(members: seq<Member>, name: string, path: Path): Traversal {
    if Has(members, name) then NOTHING else OneIssue(path + [Field(name)], Missing)
  }

  function MissingFields(members: seq<Member>, required: seq<string>, from: nat, path: Path): Traversal
    requires from <= |required|
    decreases |required| - from
  {
    if from == |required| then NOTHING
    else Then(MissingField(members, required[from], path), MissingFields(members, required, from + 1, path))
  }

  function Properties(value: Json, properties: seq<Member>, from: nat, path: Path): Traversal
    requires value.Obj? && from <= |properties|
    decreases value, 0, |properties| - from
  {
    if from == |properties| then NOTHING
    else Then(Property(value, properties[from], path), Properties(value, properties, from + 1, path))
  }

  function Property(value: Json, property: Member, path: Path): Traversal
    requires value.Obj?
    decreases value, 0, 0
  {
    var at := path + [Field(property.name)];
    if !Has(value.members, property.name) then NOTHING
    else if !property.value.Obj? then OneIssue(at, PropertySchemaNotObject)
    else Deeper(Full(value.members[IndexOf(value.members, property.name)].value, property.value.members, at))
  }

  function Items(value: Json, from: nat, rule: seq<Member>, path: Path): Traversal
    requires value.Arr? && from <= |value.items|
    decreases value, 0, |value.items| - from
  {
    if from == |value.items| then NOTHING
    else Then(Item(value, from, rule, path), Items(value, from + 1, rule, path))
  }

  function Item(value: Json, i: nat, rule: seq<Member>, path: Path): Traversal
    requires value.Arr? && i < |value.items|
    decreases value, 0, 0
  {
    Deeper(Full(value.items[i], rule, path + [Index(i)]))
  }

  function Below(value: Json, r: Reading, path: Path): Traversal
    decreases value, 1
  {
    if r.expected != "" && !MatchesJsonType(value, r.expected) then
      OneIssue(path, WrongType(r.expected, JsonType(value)))
    else if r.allowed.Some? && value !in r.allowed.value then OneIssue(path, NotInEnum)
    else if r.expected == "object" && value.Obj? then
      Then(MissingFields(value.members, r.required, 0, path), Properties(value, r.properties, 0, path))
    else if r.expected == "array" && value.Arr? && r.items.Some? then
      if !r.items.value.Obj? then OneIssue(path, ItemsSchemaNotObject)
      else Items(value, 0, r.items.value.members, path)
    else NOTHING
  }

  function Full(value: Json, rule: seq<Member>, path: Path): Traversal
    decreases value, 2
  {
    var below := Below(value, Read(rule), path);
    below.(visits := below.visits + 1)
  }

  // ----- the bounded traversal -----

  function FirstTen(issues: seq<Issue>): seq<Issue> { issues[..Min(MAX_ISSUES, |issues|)] }

  datatype State = State(issues: seq<Issue>, nodes: nat)

  /** At most one node beyond the limit is counted for every issue. */
  predicate WithinBounds(s: State) { s.nodes <= MAX_NODES + Min(MAX_ISSUES, |s.issues|) }

  predicate Fits(t: Traversal, depth: nat, nodes: nat) {
    nodes + t.visits <= MAX_NODES && depth + t.levels <= MAX_DEPTH
  }

  /**
   What the bounded traversal from s to u has to do with the unbounded one, t. Once ten issues are known nothing
   is visited any more.
   */
  ghost predicate Follows(s: State, t: Traversal, depth: nat, u: State) {
    && s.issues <= u.issues
    && (|s.issues| >= MAX_ISSUES ==> u.nodes == s.nodes)
    && (|s.issues| < MAX_ISSUES ==> s.nodes <= u.nodes)
    && (|s.issues| < MAX_ISSUES && Fits(t, depth, s.nodes) ==>
         && FirstTen(u.issues) == FirstTen(s.issues + t.issues)
         && u.nodes <= s.nodes + t.visits
         && (|u.issues| < MAX_ISSUES ==> u.nodes == s.nodes + t.visits))
    && (|s.issues| < MAX_ISSUES && u.issues == s.issues ==>
         && t.issues == []
         && u.nodes == s.nodes + t.visits
         && (s.nodes <= MAX_NODES ==> u.nodes <= MAX_NODES)
         && (t.levels > 0 ==> depth + t.levels <= MAX_DEPTH))
  }

  lemma FirstTenOfMore(a: seq<Issue>, b: seq<Issue>)
    ensures |a| >= MAX_ISSUES ==> FirstTen(a + b) == FirstTen(a)
  {
  }

  lemma FirstTenShort(a: seq<Issue>, b: seq<Issue>)
    requires FirstTen(a) == FirstTen(b) && |a| < MAX_ISSUES
    ensures a == b
  {
    assert FirstTen(a) == a;
    assert |FirstTen(b)| == Min(MAX_ISSUES, |b|);
    assert FirstTen(b) == b;
  }

  lemma Compose(s: State, a: Traversal, depth: nat, u: State, b: Traversal, v: State)
    requires Follows(s, a, depth, u) && Follows(u, b, depth, v)
    ensures Follows(s, Then(a, b), depth, v)
  {
    assert s.issues <= v.issues;
    if |s.issues| < MAX_ISSUES && Fits(Then(a, b), depth, s.nodes) {
      ComposeFits(s, a, depth, u, b, v);
    }
    if v.issues == s.issues {
      assert u.issues == s.issues;
    }
  }

  lemma ComposeFits(s: State, a: Traversal, depth: nat, u: State, b: Traversal, v: State)
    requires Follows(s, a, depth, u) && Follows(u, b, depth, v)
    requires |s.issues| < MAX_ISSUES && Fits(Then(a, b), depth, s.nodes)
    ensures FirstTen(v.issues) == FirstTen(s.issues + (a.issues + b.issues))
    ensures v.nodes <= s.nodes + a.visits + b.visits
    ensures |v.issues| < MAX_ISSUES ==> v.nodes == s.nodes + a.visits + b.visits
  {
    Assoc(s.issues, a.issues, b.issues);
    if |u.issues| < MAX_ISSUES {
      FirstTenShort(u.issues, s.issues + a.issues);
    } else {
      assert |FirstTen(u.issues)| == MAX_ISSUES;
      FirstTenOfMore(s.issues + a.issues, b.issues);
      assert v.issues == u.issues + v.issues[|u.issues|..];
      FirstTenOfMore(u.issues, v.issues[|u.issues|..]);
    }
  }

  lemma NothingFollows(s: State, t: Traversal, depth: nat)
    requires t == NOTHING || |s.issues| >= MAX_ISSUES
    ensures Follows(s, t, depth, s)
  {
    assert s.issues + [] == s.issues;
  }

  lemma OneIssueFollows(s: State, path: Path, problem: Problem, depth: nat)
    ensures Follows(s, OneIssue(path, problem), depth, s.(issues := s.issues + [Issue(path, problem)]))
  {
  }

  lemma ThenAssoc(a: Traversal, b: Traversal, c: Traversal)
    ensures Then(Then(a, b), c) == Then(a, Then(b, c))
  {
    Assoc(a.issues, b.issues, c.issues);
  }

  /** Visiting a node, in addition, leaves no trace only when that node was within the limits. */
  ghost predicate Visited(s: State, t: Traversal, depth: nat, u: State) {
    && Follows(s, t, depth, u)
    && (|s.issues| < MAX_ISSUES && u.issues == s.issues ==> depth <= MAX_DEPTH && u.nodes <= MAX_NODES)
  }

  lemma DeeperFollows(s: State, t: Traversal, depth: nat, u: State)
    requires Visited(s, t, depth + 1, u)
    ensures Follows(s, Deeper(t), depth, u)
  {
  }

  /** Within a loop over the parts of `all`: `done` is past and `rest` is still to come. */
  ghost predicate Underway(start: State, done: Traversal, depth: nat, now: State, rest: Traversal, all: Traversal) {
    Follows(start, done, depth, now) && Then(done, rest) == all && WithinBounds(now)
  }

  lemma StartFollows(start: State, depth: nat, all: Traversal)
    requires WithinBounds(start)
    ensures Underway(start, NOTHING, depth, start, all, all)
  {
    NothingFollows(start, NOTHING, depth);
  }

  /** One turn. */
  lemma StepFollows(start: State, done: Traversal, depth: nat, before: State, step: Traversal, now: State,
                    rest: Traversal, all: Traversal)
    requires Underway(start, done, depth, before, Then(step, rest), all)
    requires Follows(before, step, depth, now) && WithinBounds(now)
    ensures Underway(start, Then(done, step), depth, now, rest, all)
  {
    ThenAssoc(done, step, rest);
    Compose(start, done, depth, before, step, now);
  }

  /** The loop may stop at its end, or when ten issues are known. */
  lemma StopFollows(start: State, done: Traversal, depth: nat, now: State, rest: Traversal, all: Traversal)
    requires Underway(start, done, depth, now, rest, all)
    requires rest == NOTHING || |now.issues| >= MAX_ISSUES
    ensures Follows(start, all, depth, now)
  {
    NothingFollows(now, rest, depth);
    Compose(start, done, depth, now, rest, now);
  }

  /** The visit of a node: counted first, then what is below it. */
  lemma CountedVisit(s: State, below: Traversal, depth: nat, u: State)
    requires |s.issues| < MAX_ISSUES && s.nodes + 1 <= MAX_NODES && depth <= MAX_DEPTH
    requires Follows(s.(nodes := s.nodes + 1), below, depth, u)
    ensures Visited(s, below.(visits := below.visits + 1), depth, u)
  {
  }

  lemma RefusedVisit(s: State, path: Path, t: Traversal, depth: nat)
    requires |s.issues| < MAX_ISSUES && t.visits > 0 && (s.nodes + 1 > MAX_NODES || depth > MAX_DEPTH)
    ensures Visited(s, t, depth, State(s.issues + [Issue(path, BudgetExceeded)], s.nodes + 1))
  {
  }

  class Validation {
    var issues: seq<Issue>
    var nodes: nat

    constructor ()
      ensures Now() == State([], 0)
    {
      issues, nodes := [], 0;
    }

    function Now(): State
      reads this
    {
      State(issues, nodes)
    }

    method Push(path: Path, problem: Problem)
      modifies this
      ensures nodes == old(nodes) && issues == old(issues) + [Issue(path, problem)]
    {
      issues := issues + [Issue(path, problem)];
    }

    method CheckField(members: seq<Member>, name: string, path: Path, depth: nat)
      requires WithinBounds(Now())
      modifies this
      ensures WithinBounds(Now())
      ensures Follows(old(Now()), MissingField(members, name, path), depth, Now())
    {
      ghost var start := Now();
      if Has(members, name) {
        NothingFollows(start, NOTHING, depth);
      } else {
        Push(path + [Field(name)], Missing);
        OneIssueFollows(start, path + [Field(name)], Missing, depth);
      }
    }

    method CheckRequired(members: seq<Member>, required: seq<string>, path: Path, depth: nat)
        returns (stop: bool)
      requires WithinBounds(Now())
      modifies this
      ensures WithinBounds(Now()) && (stop ==> |issues| >= MAX_ISSUES)
      ensures Follows(old(Now()), MissingFields(members, required, 0, path), depth, Now())
    {
      ghost var start, done, all := Now(), NOTHING, MissingFields(members, required, 0, path);
      StartFollows(start, depth, all);
      var i := 0;
      while i < |required|
        invariant 0 <= i <= |required|
        invariant Underway(start, done, depth, Now(), MissingFields(members, required, i, path), all)
      {
        ghost var before, step := Now(), MissingField(members, required[i], path);
        ghost var rest := MissingFields(members, required, i + 1, path);
        CheckField(members, required[i], path, depth);
        StepFollows(start, done, depth, before, step, Now(), rest, all);
        done := Then(done, step);
        if |issues| >= MAX_ISSUES {
          StopFollows(start, done, depth, Now(), rest, all);
          return true;
        }
        i := i + 1;
      }
      StopFollows(start, done, depth, Now(), NOTHING, all);
      stop := false;
    }

    method VisitProperty(value: Json, property: Member, path: Path, depth: nat)
      requires value.Obj? && WithinBounds(Now())
      modifies this
      ensures WithinBounds(Now())
      ensures Follows(old(Now()), Property(value, property, path), depth, Now())
      decreases value, 0
    {
      ghost var start := Now();
      var at := path + [Field(property.name)];
      var i := IndexOf(value.members, property.name);
      if i == |value.members| {
        NothingFollows(start, NOTHING, depth);
      } else if !property.value.Obj? {
        Push(at, PropertySchemaNotObject);
        OneIssueFollows(start, at, PropertySchemaNotObject, depth);
      } else {
        Visit(value.members[i].value, property.value.members, at, depth + 1);
        DeeperFollows(start, Full(value.members[i].value, property.value.members, at), depth, Now());
      }
    }

    method VisitProperties(value: Json, properties: seq<Member>, path: Path, depth: nat)
      requires value.Obj? && WithinBounds(Now())
      modifies this
      ensures WithinBounds(Now())
      ensures Follows(old(Now()), Properties(value, properties, 0, path), depth, Now())
      decreases value, 1
    {
      ghost var start, done, all := Now(), NOTHING, Properties(value, properties, 0, path);
      StartFollows(start, depth, all);
      var i := 0;
      while i < |properties|
        invariant 0 <= i <= |properties|
        invariant Underway(start, done, depth, Now(), Properties(value, properties, i, path), all)
      {
        ghost var before, step := Now(), Property(value, properties[i], path);
        VisitProperty(value, properties[i], path, depth);
        StepFollows(start, done, depth, before, step, Now(), Properties(value, properties, i + 1, path), all);
        done := Then(done, step);
        i := i + 1;
      }
      StopFollows(start, done, depth, Now(), NOTHING, all);
    }

    method VisitItem(value: Json, index: nat, rule: seq<Member>, path: Path, depth: nat)
      requires value.Arr? && index < |value.items| && WithinBounds(Now())
      modifies this
      ensures WithinBounds(Now())
      ensures Follows(old(Now()), Item(value, index, rule, path), depth, Now())
      decreases value, 0
    {
      ghost var start, at := Now(), path + [Index(index)];
      Visit(value.items[index], rule, path + [Index(index)], depth + 1);
      DeeperFollows(start, Full(value.items[index], rule, at), depth, Now());
    }

    method VisitItems(value: Json, rule: seq<Member>, path: Path, depth: nat)
      requires value.Arr? && WithinBounds(Now())
      modifies this
      ensures WithinBounds(Now())
      ensures Follows(old(Now()), Items(value, 0, rule, path), depth, Now())
      decreases value, 1
    {
      ghost var start, done, all := Now(), NOTHING, Items(value, 0, rule, path);
      StartFollows(start, depth, all);
      var index := 0;
      while index < |value.items| && |issues| < MAX_ISSUES
        invariant 0 <= index <= |value.items|
        invariant Underway(start, done, depth, Now(), Items(value, index, rule, path), all)
      {
        ghost var before, step := Now(), Item(value, index, rule, path);
        VisitItem(value, index, rule, path, depth);
        StepFollows(start, done, depth, before, step, Now(), Items(value, index + 1, rule, path), all);
        done := Then(done, step);
        index := index + 1;
      }
      StopFollows(start, done, depth, Now(), Items(value, index, rule, path), all);
    }

    /** What happens to a node that was counted. */
    method VisitBelow(value: Json, r: Reading, path: Path, depth: nat)
      requires WithinBounds(Now())
      modifies this
      ensures WithinBounds(Now())
      ensures Follows(old(Now()), Below(value, r, path), depth, Now())
      decreases value, 3
    {
      ghost var start := Now();
      if r.expected != "" && !MatchesJsonType(value, r.expected) {
        Push(path, WrongType(r.expected, JsonType(value)));
        OneIssueFollows(start, path, WrongType(r.expected, JsonType(value)), depth);
        return;
      }
      if r.allowed.Some? && value !in r.allowed.value {
        Push(path, NotInEnum);
        OneIssueFollows(start, path, NotInEnum, depth);
        return;
      }
      if r.expected == "object" && value.Obj? {
        VisitObject(value, r, path, depth);
      } else if r.expected == "array" && value.Arr? && r.items.Some? {
        if !r.items.value.Obj? {
          Push(path, ItemsSchemaNotObject);
          OneIssueFollows(start, path, ItemsSchemaNotObject, depth);
        } else {
          VisitItems(value, r.items.value.members, path, depth);
        }
      } else {
        NothingFollows(start, NOTHING, depth);
      }
    }

    method VisitObject(value: Json, r: Reading, path: Path, depth: nat)
      requires value.Obj? && WithinBounds(Now())
      modifies this
      ensures WithinBounds(Now())
      ensures Follows(old(Now()),
                      Then(MissingFields(value.members, r.required, 0, path), Properties(value, r.properties, 0, path)),
                      depth, Now())
      decreases value, 2
    {
      ghost var start, properties := Now(), Properties(value, r.properties, 0, path);
      var stop := CheckRequired(value.members, r.required, path, depth);
      ghost var between := Now();
      if stop {
        NothingFollows(between, properties, depth);
      } else {
        VisitProperties(value, r.properties, path, depth);
      }
      Compose(start, MissingFields(value.members, r.required, 0, path), depth, between, properties, Now());
    }

    method Visit(value: Json, rule: seq<Member>, path: Path, depth: nat)
      requires WithinBounds(Now())
      modifies this
      ensures WithinBounds(Now())
      ensures Visited(old(Now()), Full(value, rule, path), depth, Now())
      decreases value, 4
    {
      ghost var start := Now();
      if |issues| >= MAX_ISSUES {
        NothingFollows(start, Full(value, rule, path), depth);
        return;
      }
      nodes := nodes + 1;
      if nodes > MAX_NODES || depth > MAX_DEPTH {
        Push(path, BudgetExceeded);
        RefusedVisit(start, path, Full(value, rule, path), depth);
        return;
      }
      VisitBelow(value, Read(rule), path, depth);
      CountedVisit(start, Below(value, Read(rule), path), depth, Now());
    }
  }

  // ----- what an empty report means -----

  lemma MissingNext(members: seq<Member>, required: seq<string>, from: nat, path: Path)
    requires from < |required|
    requires MissingFields(members, required, from + 1, path).issues == [] <==> PresentFrom(members, required, from + 1)
    ensures MissingFields(members, required, from, path).issues == [] <==> PresentFrom(members, required, from)
  {
    assert PresentFrom(members, required, from)
      <==> Has(members, required[from]) && PresentFrom(members, required, from + 1);
  }

  lemma {:induction false} NoneMissing(members: seq<Member>, required: seq<string>, from: nat, path: Path)
    requires from <= |required|
    ensures MissingFields(members, required, from, path).issues == [] <==> PresentFrom(members, required, from)
    decreases |required| - from
  {
    if from < |required| {
      NoneMissing(members, required, from + 1, path);
      MissingNext(members, required, from, path);
    }
  }

  lemma {:induction false} PropertiesConform(value: Json, properties: seq<Member>, from: nat, path: Path)
    requires value.Obj? && from <= |properties|
    ensures Properties(value, properties, from, path).issues == [] <==> PropertiesConformFrom(value, properties, from)
    decreases value, 0, |properties| - from
  {
    if from < |properties| {
      PropertyIssues(value, properties[from], path);
      PropertiesConform(value, properties, from + 1, path);
      assert PropertiesConformFrom(value, properties, from)
        <==> PropertyConforms(value, properties[from]) && PropertiesConformFrom(value, properties, from + 1);
    }
  }

  lemma PropertyIssues(value: Json, property: Member, path: Path)
    requires value.Obj?
    ensures Property(value, property, path).issues == [] <==> PropertyConforms(value, property)
    decreases value, 0, 0
  {
    var i := IndexOf(value.members, property.name);
    if i < |value.members| && property.value.Obj? {
      NoIssueMeansConforms(value.members[i].value, property.value.members, path + [Field(property.name)]);
    }
  }

  lemma ItemsConformSplit(value: Json, rule: seq<Member>, from: nat)
    requires value.Arr? && from < |value.items|
    ensures ItemsConformFrom(value, from, rule)
      <==> ItemConforms(value, from, rule) && ItemsConformFrom(value, from + 1, rule)
  {
  }

  ghost predicate ItemAgrees(value: Json, i: nat, rule: seq<Member>, path: Path)
    requires value.Arr? && i < |value.items|
  {
    Item(value, i, rule, path).issues == [] <==> ItemConforms(value, i, rule)
  }

  ghost predicate ItemsAgreeFrom(value: Json, from: nat, rule: seq<Member>, path: Path)
    requires value.Arr? && from <= |value.items|
  {
    Items(value, from, rule, path).issues == [] <==> ItemsConformFrom(value, from, rule)
  }

  lemma NextItemAgrees(value: Json, rule: seq<Member>, from: nat, path: Path)
    requires value.Arr? && from < |value.items|
    requires ItemAgrees(value, from, rule, path) && ItemsAgreeFrom(value, from + 1, rule, path)
    ensures ItemsAgreeFrom(value, from, rule, path)
  {
    ItemsConformSplit(value, rule, from);
  }

  lemma {:induction false} ItemsAgree(value: Json, rule: seq<Member>, from: nat, path: Path)
    requires value.Arr? && from <= |value.items|
    requires forall i: nat :: i < |value.items| ==> ItemAgrees(value, i, rule, path)
    ensures ItemsAgreeFrom(value, from, rule, path)
    decreases |value.items| - from
  {
    if from < |value.items| {
      ItemsAgree(value, rule, from + 1, path);
      NextItemAgrees(value, rule, from, path);
    }
  }

  lemma ItemIssues(value: Json, i: nat, rule: seq<Member>, path: Path)
    requires value.Arr? && i < |value.items|
    ensures ItemAgrees(value, i, rule, path)
    decreases value, 0, 0
  {
    NoIssueMeansConforms(value.items[i], rule, path + [Index(i)]);
  }

  lemma ItemsConform(value: Json, rule: seq<Member>, path: Path)
    requires value.Arr?
    ensures Items(value, 0, rule, path).issues == [] <==> ItemsConformFrom(value, 0, rule)
    decreases value, 1
  {
    forall i: nat | i < |value.items| ensures ItemAgrees(value, i, rule, path) {
      ItemIssues(value, i, rule, path);
    }
    ItemsAgree(value, rule, 0, path);
  }

  lemma FieldIssues(value: Json, r: Reading, path: Path)
    requires value.Obj?
    ensures
      Then(MissingFields(value.members, r.required, 0, path), Properties(value, r.properties, 0, path)).issues == []
      <==> FieldsConform(value, r)
    decreases value, 1
  {
    NoneMissing(value.members, r.required, 0, path);
    PropertiesConform(value, r.properties, 0, path);
  }

  lemma BelowConforms(value: Json, r: Reading, path: Path)
    ensures Below(value, r, path).issues == [] <==> ConformsTo(value, r)
    decreases value, 2
  {
    if value.Obj? {
      FieldIssues(value, r, path);
    } else if value.Arr? && r.items.Some? && r.items.value.Obj? {
      ItemsConform(value, r.items.value.members, path);
    }
  }

  /** The traversal without bounds reports nothing exactly when the data conforms. */
  lemma {:induction false} NoIssueMeansConforms(value: Json, rule: seq<Member>, path: Path)
    ensures Full(value, rule, path).issues == [] <==> Conforms(value, rule)
    decreases value, 3
  {
    BelowConforms(value, Read(rule), path);
    ReadMeans(value, rule);
  }

  // ----- the theorem -----

  function Validate(schema: Option<seq<Member>>, data: Json): Traversal {
    if schema.None? then NOTHING else Full(data, schema.value, [])
  }

  /**
   No issue is reported exactly when the data conforms to the schema and the unbounded traversal stays within the
   limits; within the limits the report is the first ten issues of that traversal; whatever the input, at most
   ten issues are reported and at most 110 nodes are counted.
   */
  method ValidateAuthenticatedJsonData(data: Json, schema: Option<seq<Member>>)
      returns (issues: seq<Issue>, nodes: nat)
    ensures |issues| <= 10 && nodes <= 110
    ensures var unbounded := Validate(schema, data);
      var fits := unbounded.visits <= 100 && unbounded.levels <= 8;
      && (issues == [] <==> schema.None? || (Conforms(data, schema.value) && fits))
      && (fits ==> issues == unbounded.issues[..Min(10, |unbounded.issues|)])
  {
    if schema.None? { return [], 0; }
    var validation := new Validation();
    validation.Visit(data, schema.value, [], 0);
    EmptyOrFirstTen(data, schema.value, validation.Now());
    return FirstTen(validation.issues), validation.nodes;
  }

  lemma FirstTenAtEnd(full: Traversal, end: State)
    requires Visited(State([], 0), full, 0, end)
    ensures end.issues == [] <==> full.issues == [] && Fits(full, 0, 0)
    ensures Fits(full, 0, 0) ==> FirstTen(end.issues) == FirstTen(full.issues)
  {
    assert [] + full.issues == full.issues;
    if full.issues == [] && Fits(full, 0, 0) {
      assert FirstTen(end.issues) == [];
    }
  }

  lemma EmptyOrFirstTen(data: Json, rule: seq<Member>, end: State)
    requires Visited(State([], 0), Full(data, rule, []), 0, end)
    ensures end.issues == [] <==> Conforms(data, rule) && Fits(Full(data, rule, []), 0, 0)
    ensures Fits(Full(data, rule, []), 0, 0) ==> FirstTen(end.issues) == FirstTen(Full(data, rule, []).issues)
  {
    FirstTenAtEnd(Full(data, rule, []), end);
    NoIssueMeansConforms(data, rule, []);
  }
}
