/**
 Redaction of captured JSON bodies: values of sensitive fields, and strings that look like credentials, are
 replaced by placeholders and kept aside in a store.
 */
module JsonRedaction {
  import opened Prelude
  import opened Json

  /**
   Which fields are sensitive, which strings look like credentials, how a slot is derived and a value
   written down.
   */
  datatype Policy = Policy(
    sensitive: string -> bool,
    safe: string -> bool,
    credential: string -> bool,
    slot: string -> string,
    serialize: Json -> string,
    showIndex: nat -> string)

  /** An empty field name is never taken for the name of a field. */
  predicate ShouldRedact(p: Policy, name: string, value: Json) {
    name != "" && (p.sensitive(name) || (!p.safe(name) && value.Str? && p.credential(value.s)))
  }

  function Placeholder(p: Policy, path: string): string { "{{shuvgeist-secret:" + p.slot(path) + "}}" }

  /** A value that was replaced: where it was, as child numbers from the root down and as the path reported. */
  datatype Secret = Secret(position: seq<nat>, path: string, value: Json)

  datatype Redaction = Redaction(json: Json, secrets: seq<Secret>)

  datatype Parts<T> = Parts(items: seq<T>, secrets: seq<Secret>)

  function Under(i: nat, secrets: seq<Secret>): seq<Secret> {
    if secrets == [] then [] else
      [secrets[0].(position := [i] + secrets[0].position)] + Under(i, secrets[1..])
  }

  // ----- what the walk computes -----

  function Redact(p: Policy, value: Json, path: string, name: string): Redaction
    decreases value, 1
  {
    if ShouldRedact(p, name, value) then Redaction(Str(Placeholder(p, path)), [Secret([], path, value)])
    else match value
      case Arr(_) => var parts := RedactItems(p, value, 0, path); Redaction(Arr(parts.items), parts.secrets)
      case Obj(_) => var parts := RedactMembers(p, value, 0, path); Redaction(Obj(parts.items), parts.secrets)
      case _ => Redaction(value, [])
  }

  function ItemPath(p: Policy, path: string, i: nat): string { path + "[" + p.showIndex(i) + "]" }

  function RedactItems(p: Policy, value: Json, from: nat, path: string): (r: Parts<Json>)
    requires value.Arr? && from <= |value.items|
    ensures |r.items| == |value.items| - from
    decreases value, 0, |value.items| - from
  {
    if from == |value.items| then Parts([], []) else
      var first := Redact(p, value.items[from], ItemPath(p, path, from), "");
      var rest := RedactItems(p, value, from + 1, path);
      Parts([first.json] + rest.items, Under(from, first.secrets) + rest.secrets)
  }

  function RedactMembers(p: Policy, value: Json, from: nat, path: string): (r: Parts<Member>)
    requires value.Obj? && from <= |value.members|
    ensures |r.items| == |value.members| - from
    decreases value, 0, |value.members| - from
  {
    if from == |value.members| then Parts([], []) else
      var m := value.members[from];
      var first := Redact(p, m.value, path + "." + m.name, m.name);
      var rest := RedactMembers(p, value, from + 1, path);
      Parts([Member(m.name, first.json)] + rest.items, Under(from, first.secrets) + rest.secrets)
  }

  // ----- putting the secrets back restores the input -----

  function SetAt(json: Json, position: seq<nat>, value: Json): Json
    decreases |position|
  {
    if position == [] then value else
      var (i, rest) := (position[0], position[1..]);
      match json
      case Arr(items) => if i < |items| then Arr(items[i := SetAt(items[i], rest, value)]) else json
      case Obj(members) =>
        if i < |members| then Obj(members[i := Member(members[i].name, SetAt(members[i].value, rest, value))]) else json
      case _ => json
  }

  function Restore(json: Json, secrets: seq<Secret>): Json
    decreases |secrets|
  {
    if secrets == [] then json else Restore(SetAt(json, secrets[0].position, secrets[0].value), secrets[1..])
  }

  lemma {:induction false} RestoreAppend(json: Json, a: seq<Secret>, b: seq<Secret>)
    ensures Restore(json, a + b) == Restore(Restore(json, a), b)
    decreases |a|
  {
    if a == [] {
      assert a + b == b;
    } else {
      assert (a + b)[0] == a[0] && (a + b)[1..] == a[1..] + b;
      RestoreAppend(SetAt(json, a[0].position, a[0].value), a[1..], b);
    }
  }

  lemma SetAtChild(json: Json, i: nat, position: seq<nat>, value: Json)
    requires (json.Arr? && i < |json.items|) || (json.Obj? && i < |json.members|)
    ensures SetAt(json, [i] + position, value) ==
      if json.Arr? then Arr(json.items[i := SetAt(json.items[i], position, value)])
      else Obj(json.members[i := Member(json.members[i].name, SetAt(json.members[i].value, position, value))])
  {
    assert ([i] + position)[0] == i && ([i] + position)[1..] == position;
  }

  lemma {:induction false} RestoreItem(items: seq<Json>, i: nat, secrets: seq<Secret>)
    requires i < |items|
    ensures Restore(Arr(items), Under(i, secrets)) == Arr(items[i := Restore(items[i], secrets)])
    decreases |secrets|
  {
    if secrets == [] {
      assert items[i := items[i]] == items;
    } else {
      var s := secrets[0];
      var item := SetAt(items[i], s.position, s.value);
      SetAtChild(Arr(items), i, s.position, s.value);
      assert Under(i, secrets)[1..] == Under(i, secrets[1..]);
      RestoreItem(items[i := item], i, secrets[1..]);
      assert items[i := item][i := Restore(item, secrets[1..])] == items[i := Restore(item, secrets[1..])];
    }
  }

  lemma {:induction false} RestoreMember(members: seq<Member>, i: nat, secrets: seq<Secret>)
    requires i < |members|
    ensures Restore(Obj(members), Under(i, secrets))
      == Obj(members[i := Member(members[i].name, Restore(members[i].value, secrets))])
    decreases |secrets|
  {
    if secrets == [] {
      assert members[i := members[i]] == members;
    } else {
      var s := secrets[0];
      var member := Member(members[i].name, SetAt(members[i].value, s.position, s.value));
      SetAtChild(Obj(members), i, s.position, s.value);
      assert Under(i, secrets)[1..] == Under(i, secrets[1..]);
      RestoreMember(members[i := member], i, secrets[1..]);
      assert members[i := member][i := Member(member.name, Restore(member.value, secrets[1..]))]
        == members[i := Member(member.name, Restore(member.value, secrets[1..]))];
    }
  }

  lemma UpdateNext<T>(before: seq<T>, x: T, rest: seq<T>, y: T)
    ensures (before + ([x] + rest))[|before|] == x
    ensures (before + ([x] + rest))[|before| := y] == (before + [y]) + rest
  {
  }

  lemma RestoreFirstItem(before: seq<Json>, item: Json, first: Redaction, rest: Parts<Json>)
    requires Restore(first.json, first.secrets) == item
    ensures Restore(Arr(before + ([first.json] + rest.items)), Under(|before|, first.secrets) + rest.secrets)
      == Restore(Arr((before + [item]) + rest.items), rest.secrets)
  {
    var items := before + ([first.json] + rest.items);
    RestoreAppend(Arr(items), Under(|before|, first.secrets), rest.secrets);
    UpdateNext(before, first.json, rest.items, item);
    RestoreItem(items, |before|, first.secrets);
  }

  lemma RestoreFirstMember(before: seq<Member>, m: Member, first: Redaction, rest: Parts<Member>)
    requires Restore(first.json, first.secrets) == m.value
    ensures Restore(Obj(before + ([Member(m.name, first.json)] + rest.items)),
                    Under(|before|, first.secrets) + rest.secrets)
      == Restore(Obj((before + [m]) + rest.items), rest.secrets)
  {
    var members := before + ([Member(m.name, first.json)] + rest.items);
    RestoreAppend(Obj(members), Under(|before|, first.secrets), rest.secrets);
    UpdateNext(before, Member(m.name, first.json), rest.items, m);
    RestoreMember(members, |before|, first.secrets);
  }

  lemma NextTail<T>(before: seq<T>, all: seq<T>, from: nat)
    requires from < |all|
    ensures (before + [all[from]]) + all[from + 1..] == before + all[from..]
  {
  }

  lemma {:induction false} RestoreItems(p: Policy, value: Json, from: nat, path: string, before: seq<Json>)
    requires value.Arr? && from <= |value.items| && |before| == from
    ensures var parts := RedactItems(p, value, from, path);
      Restore(Arr(before + parts.items), parts.secrets) == Arr(before + value.items[from..])
    decreases value, 0, |value.items| - from
  {
    if from < |value.items| {
      var (item, at) := (value.items[from], ItemPath(p, path, from));
      RedactionIsReversible(p, item, at, "");
      RestoreFirstItem(before, item, Redact(p, item, at, ""), RedactItems(p, value, from + 1, path));
      RestoreItems(p, value, from + 1, path, before + [item]);
      NextTail(before, value.items, from);
    }
  }

  lemma {:induction false} RestoreMembers(p: Policy, value: Json, from: nat, path: string, before: seq<Member>)
    requires value.Obj? && from <= |value.members| && |before| == from
    ensures var parts := RedactMembers(p, value, from, path);
      Restore(Obj(before + parts.items), parts.secrets) == Obj(before + value.members[from..])
    decreases value, 0, |value.members| - from
  {
    if from < |value.members| {
      var m := value.members[from];
      var at := path + "." + m.name;
      RedactionIsReversible(p, m.value, at, m.name);
      RestoreFirstMember(before, m, Redact(p, m.value, at, m.name), RedactMembers(p, value, from + 1, path));
      RestoreMembers(p, value, from + 1, path, before + [m]);
      NextTail(before, value.members, from);
    }
  }

  lemma NothingBefore<T>(s: seq<T>)
    ensures [] + s == s && s[0..] == s
  {
  }

  lemma RestoreWhole(json: Json, path: string, value: Json)
    ensures Restore(json, [Secret([], path, value)]) == value
    ensures Erase([Secret([], path, value)]) == [Secret([], path, Null)]
  {
    assert [Secret([], path, value)][1..] == [];
  }

  /** Putting every secret back where it was taken gives the input: nothing else was changed. */
  lemma {:induction false} RedactionIsReversible(p: Policy, value: Json, path: string, name: string)
    ensures Restore(Redact(p, value, path, name).json, Redact(p, value, path, name).secrets) == value
    decreases value, 1
  {
    if ShouldRedact(p, name, value) {
      RestoreWhole(Str(Placeholder(p, path)), path, value);
    } else if value.Arr? {
      RestoreItems(p, value, 0, path, []);
      NothingBefore(RedactItems(p, value, 0, path).items);
      NothingBefore(value.items);
    } else if value.Obj? {
      RestoreMembers(p, value, 0, path, []);
      NothingBefore(RedactMembers(p, value, 0, path).items);
      NothingBefore(value.members);
    }
  }

  // ----- what the output does not depend on -----

  /** The same secrets without their values. */
  function Erase(secrets: seq<Secret>): seq<Secret> {
    if secrets == [] then [] else [secrets[0].(value := Null)] + Erase(secrets[1..])
  }

  lemma {:induction false} EraseAppend(a: seq<Secret>, b: seq<Secret>)
    ensures Erase(a + b) == Erase(a) + Erase(b)
  {
    if a == [] {
      assert a + b == b;
    } else {
      assert (a + b)[0] == a[0] && (a + b)[1..] == a[1..] + b;
      EraseAppend(a[1..], b);
    }
  }

  lemma {:induction false} EraseUnder(i: nat, secrets: seq<Secret>)
    ensures Erase(Under(i, secrets)) == Under(i, Erase(secrets))
  {
    if secrets != [] { EraseUnder(i, secrets[1..]); }
  }

  /** Equal but for what is below sensitive fields. */
  ghost predicate Alike(p: Policy, name: string, a: Json, b: Json)
    decreases a
  {
    || (name != "" && p.sensitive(name))
    || a == b
    || (a.Arr? && b.Arr? && |a.items| == |b.items|
        && forall i :: 0 <= i < |a.items| ==> Alike(p, "", a.items[i], b.items[i]))
    || (a.Obj? && b.Obj? && |a.members| == |b.members|
        && forall i :: 0 <= i < |a.members| ==>
             a.members[i].name == b.members[i].name
             && Alike(p, a.members[i].name, a.members[i].value, b.members[i].value))
  }

  ghost predicate SameOutput<T>(a: Parts<T>, b: Parts<T>) {
    a.items == b.items && Erase(a.secrets) == Erase(b.secrets)
  }

  lemma JoinSame<T>(i: nat, x: T, first: seq<Secret>, rest: Parts<T>, first': seq<Secret>, rest': Parts<T>)
    requires Erase(first) == Erase(first') && SameOutput(rest, rest')
    ensures SameOutput(Parts([x] + rest.items, Under(i, first) + rest.secrets),
                       Parts([x] + rest'.items, Under(i, first') + rest'.secrets))
  {
    EraseAppend(Under(i, first), rest.secrets);
    EraseAppend(Under(i, first'), rest'.secrets);
    EraseUnder(i, first);
    EraseUnder(i, first');
  }

  lemma {:induction false} AlikeItems(p: Policy, a: Json, b: Json, from: nat, path: string)
    requires a.Arr? && b.Arr? && |a.items| == |b.items| && from <= |a.items|
    requires forall i :: 0 <= i < |a.items| ==> Alike(p, "", a.items[i], b.items[i])
    ensures SameOutput(RedactItems(p, a, from, path), RedactItems(p, b, from, path))
    decreases a, 0, |a.items| - from
  {
    if from < |a.items| {
      var at := ItemPath(p, path, from);
      SecretsDoNotShow(p, a.items[from], b.items[from], at, "");
      AlikeItems(p, a, b, from + 1, path);
      var first, first' := Redact(p, a.items[from], at, ""), Redact(p, b.items[from], at, "");
      JoinSame(from, first.json, first.secrets, RedactItems(p, a, from + 1, path),
               first'.secrets, RedactItems(p, b, from + 1, path));
    }
  }

  lemma {:induction false} AlikeMembers(p: Policy, a: Json, b: Json, from: nat, path: string)
    requires a.Obj? && b.Obj? && |a.members| == |b.members| && from <= |a.members|
    requires forall i :: 0 <= i < |a.members| ==>
      a.members[i].name == b.members[i].name
      && Alike(p, a.members[i].name, a.members[i].value, b.members[i].value)
    ensures SameOutput(RedactMembers(p, a, from, path), RedactMembers(p, b, from, path))
    decreases a, 0, |a.members| - from
  {
    if from < |a.members| {
      var name := a.members[from].name;
      var at := path + "." + name;
      SecretsDoNotShow(p, a.members[from].value, b.members[from].value, at, name);
      AlikeMembers(p, a, b, from + 1, path);
      var first, first' := Redact(p, a.members[from].value, at, name), Redact(p, b.members[from].value, at, name);
      JoinSame(from, Member(name, first.json), first.secrets, RedactMembers(p, a, from + 1, path),
               first'.secrets, RedactMembers(p, b, from + 1, path));
    }
  }

  /** Values that differ only below sensitive fields are redacted to the same output, at the same places. */
  lemma {:induction false} SecretsDoNotShow(p: Policy, a: Json, b: Json, path: string, name: string)
    requires Alike(p, name, a, b)
    ensures Redact(p, a, path, name).json == Redact(p, b, path, name).json
    ensures Erase(Redact(p, a, path, name).secrets) == Erase(Redact(p, b, path, name).secrets)
    decreases a, 1
  {
    if name != "" && p.sensitive(name) {
      RestoreWhole(Null, path, a);
      RestoreWhole(Null, path, b);
    } else if a != b {
      if a.Arr? {
        AlikeItems(p, a, b, 0, path);
        ArraysShowTheSame(p, a, b, path, name);
      } else {
        AlikeMembers(p, a, b, 0, path);
        ObjectsShowTheSame(p, a, b, path, name);
      }
    }
  }

  lemma ArraysShowTheSame(p: Policy, a: Json, b: Json, path: string, name: string)
    requires a.Arr? && b.Arr? && !(name != "" && p.sensitive(name))
    requires SameOutput(RedactItems(p, a, 0, path), RedactItems(p, b, 0, path))
    ensures Redact(p, a, path, name).json == Redact(p, b, path, name).json
    ensures Erase(Redact(p, a, path, name).secrets) == Erase(Redact(p, b, path, name).secrets)
  {
  }

  lemma ObjectsShowTheSame(p: Policy, a: Json, b: Json, path: string, name: string)
    requires a.Obj? && b.Obj? && !(name != "" && p.sensitive(name))
    requires SameOutput(RedactMembers(p, a, 0, path), RedactMembers(p, b, 0, path))
    ensures Redact(p, a, path, name).json == Redact(p, b, path, name).json
    ensures Erase(Redact(p, a, path, name).secrets) == Erase(Redact(p, b, path, name).secrets)
  {
  }

  // ----- the redactor and its store -----

  datatype SecretRecord = SecretRecord(slot: string, placeholder: string, source: string, value: string)

  function RecordOf(p: Policy, s: Secret): SecretRecord {
    SecretRecord(p.slot(s.path), Placeholder(p, s.path), s.path, p.serialize(s.value))
  }

  /** The store after these secrets, in their order: a later one with the same slot replaces an earlier one. */
  function PutAll(p: Policy, store: map<string, SecretRecord>, secrets: seq<Secret>): map<string, SecretRecord>
    decreases |secrets|
  {
    if secrets == [] then store
    else PutAll(p, store[p.slot(secrets[0].path) := RecordOf(p, secrets[0])], secrets[1..])
  }

  function Paths(secrets: seq<Secret>): seq<string> {
    if secrets == [] then [] else [secrets[0].path] + Paths(secrets[1..])
  }

  function Placeholders(p: Policy, secrets: seq<Secret>): seq<string> {
    if secrets == [] then [] else [Placeholder(p, secrets[0].path)] + Placeholders(p, secrets[1..])
  }

  lemma {:induction false} TraceAppend(p: Policy, store: map<string, SecretRecord>, a: seq<Secret>, b: seq<Secret>)
    ensures Paths(a + b) == Paths(a) + Paths(b)
    ensures Placeholders(p, a + b) == Placeholders(p, a) + Placeholders(p, b)
    ensures PutAll(p, store, a + b) == PutAll(p, PutAll(p, store, a), b)
    decreases |a|
  {
    if a == [] {
      assert a + b == b;
    } else {
      assert (a + b)[0] == a[0] && (a + b)[1..] == a[1..] + b;
      TraceAppend(p, store[p.slot(a[0].path) := RecordOf(p, a[0])], a[1..], b);
    }
  }

  lemma {:induction false} TraceUnder(p: Policy, store: map<string, SecretRecord>, i: nat, secrets: seq<Secret>)
    ensures Paths(Under(i, secrets)) == Paths(secrets)
    ensures Placeholders(p, Under(i, secrets)) == Placeholders(p, secrets)
    ensures PutAll(p, store, Under(i, secrets)) == PutAll(p, store, secrets)
    decreases |secrets|
  {
    if secrets != [] {
      assert Under(i, secrets)[1..] == Under(i, secrets[1..]);
      TraceUnder(p, store[p.slot(secrets[0].path) := RecordOf(p, secrets[0])], i, secrets[1..]);
    }
  }

  lemma {:induction false} ErasedTrace(p: Policy, secrets: seq<Secret>)
    ensures Paths(Erase(secrets)) == Paths(secrets) && Placeholders(p, Erase(secrets)) == Placeholders(p, secrets)
  {
    if secrets != [] { ErasedTrace(p, secrets[1..]); }
  }

  /** The distinct values, each at its first occurrence. */
  function Unique(values: seq<string>): (r: seq<string>)
    ensures forall v :: v in r <==> v in values
  {
    if values == [] then [] else
      var (init, last) := (values[..|values| - 1], values[|values| - 1]);
      assert values == init + [last];
      if last in init then Unique(init) else Unique(init) + [last]
  }

  lemma {:induction false} UniqueIsDistinct(values: seq<string>)
    ensures Distinct(Unique(values))
  {
    if values != [] { UniqueIsDistinct(values[..|values| - 1]); }
  }

  /** Where a value occurs for the first time, after an occurrence of the other. */
  ghost predicate ComesLater(values: seq<string>, earlier: string, later: string) {
    exists a: nat, b: nat :: a < b < |values| && values[a] == earlier && values[b] == later && later !in values[..b]
  }

  /** They are listed in the order of their first occurrences. */
  lemma {:induction false} UniqueKeepsOrder(values: seq<string>, i: nat, j: nat)
    requires i < j < |Unique(values)|
    ensures ComesLater(values, Unique(values)[i], Unique(values)[j])
  {
    var (init, last) := (values[..|values| - 1], values[|values| - 1]);
    if j < |Unique(init)| {
      UniqueKeepsOrder(init, i, j);
      var a: nat, b: nat :| a < b < |init| && init[a] == Unique(init)[i] && init[b] == Unique(init)[j]
        && Unique(init)[j] !in init[..b];
      assert values[..b] == init[..b] && values[a] == init[a] && values[b] == init[b];
    } else {
      assert Unique(init)[i] in init;
      var a: nat :| a < |init| && init[a] == Unique(init)[i];
      assert values[a] == init[a] && values[..|init|] == init;
    }
  }

  /** What is known of the walk so far: three views of the same list of secrets. */
  datatype Walked = Walked(fields: seq<string>, references: seq<string>, store: map<string, SecretRecord>)

  function After(p: Policy, w: Walked, secrets: seq<Secret>): Walked {
    Walked(w.fields + Paths(secrets), w.references + Placeholders(p, secrets), PutAll(p, w.store, secrets))
  }

  lemma AfterBoth(p: Policy, w: Walked, a: seq<Secret>, b: seq<Secret>)
    ensures After(p, w, a + b) == After(p, After(p, w, a), b)
  {
    TraceAppend(p, w.store, a, b);
    Assoc(w.fields, Paths(a), Paths(b));
    Assoc(w.references, Placeholders(p, a), Placeholders(p, b));
  }

  lemma AfterChild(p: Policy, w: Walked, i: nat, first: seq<Secret>, rest: seq<Secret>)
    ensures After(p, w, Under(i, first) + rest) == After(p, After(p, w, first), rest)
  {
    AfterBoth(p, w, Under(i, first), rest);
    TraceUnder(p, w.store, i, first);
  }

  lemma AfterNothing(p: Policy, w: Walked)
    ensures After(p, w, []) == w
  {
    assert w.fields + [] == w.fields && w.references + [] == w.references;
  }

  lemma AfterOne(p: Policy, w: Walked, s: Secret)
    ensures After(p, w, [s]) ==
      Walked(w.fields + [s.path], w.references + [Placeholder(p, s.path)], w.store[p.slot(s.path) := RecordOf(p, s)])
  {
    var one := [s];
    assert one[0] == s && one[1..] == [];
    assert Paths(one) == [s.path] + Paths(one[1..]);
    assert Placeholders(p, one) == [Placeholder(p, s.path)] + Placeholders(p, one[1..]);
    assert PutAll(p, w.store, one) == PutAll(p, w.store[p.slot(s.path) := RecordOf(p, s)], one[1..]);
  }

  datatype RedactedBody =
    | Omitted
    | Body(text: string, redactedFields: seq<string>, secretReferences: seq<string>)

  class NetworkRedactor {
    const policy: Policy
    var store: map<string, SecretRecord>
    var redactedFields: seq<string>      // of the body being walked
    var secretReferences: seq<string>

    constructor (policy: Policy)
      ensures this.policy == policy && Now() == Walked([], [], map[])
    {
      this.policy := policy;
      store, redactedFields, secretReferences := map[], [], [];
    }

    function Now(): Walked
      reads this
    {
      Walked(redactedFields, secretReferences, store)
    }

    method StoreSecret(path: string, value: Json) returns (json: Json)
      modifies this
      ensures json == Str(Placeholder(policy, path))
      ensures Now() == After(policy, old(Now()), [Secret([], path, value)])
    {
      var record := RecordOf(policy, Secret([], path, value));
      store := store[record.slot := record];
      redactedFields := redactedFields + [path];
      secretReferences := secretReferences + [record.placeholder];
      json := Str(record.placeholder);
      AfterOne(policy, old(Now()), Secret([], path, value));
    }

    method Walk(value: Json, path: string, name: string) returns (json: Json)
      modifies this
      ensures json == Redact(policy, value, path, name).json
      ensures Now() == After(policy, old(Now()), Redact(policy, value, path, name).secrets)
      decreases value, 1
    {
      if ShouldRedact(policy, name, value) {
        json := StoreSecret(path, value);
        return;
      }
      match value
      case Arr(_) =>
        var items := WalkItems(value, path);
        json := Arr(items);
      case Obj(_) =>
        var members := WalkMembers(value, path);
        json := Obj(members);
      case _ =>
        AfterNothing(policy, Now());
        json := value;
    }

    method WalkItems(value: Json, path: string) returns (items: seq<Json>)
      requires value.Arr?
      modifies this
      ensures items == RedactItems(policy, value, 0, path).items
      ensures Now() == After(policy, old(Now()), RedactItems(policy, value, 0, path).secrets)
      decreases value, 0
    {
      items := [];
      ghost var all := RedactItems(policy, value, 0, path);
      ghost var end := After(policy, Now(), all.secrets);
      NothingBefore(all.items);
      for i := 0 to |value.items|
        invariant items + RedactItems(policy, value, i, path).items == all.items
        invariant After(policy, Now(), RedactItems(policy, value, i, path).secrets) == end
      {
        ghost var rest := RedactItems(policy, value, i + 1, path);
        ghost var first := Redact(policy, value.items[i], ItemPath(policy, path, i), "");
        AfterChild(policy, Now(), i, first.secrets, rest.secrets);
        var item := Walk(value.items[i], ItemPath(policy, path, i), "");
        Assoc(items, [item], rest.items);
        items := items + [item];
      }
      assert items + [] == items;
      AfterNothing(policy, Now());
    }

    method WalkMembers(value: Json, path: string) returns (members: seq<Member>)
      requires value.Obj?
      modifies this
      ensures members == RedactMembers(policy, value, 0, path).items
      ensures Now() == After(policy, old(Now()), RedactMembers(policy, value, 0, path).secrets)
      decreases value, 0
    {
      members := [];
      ghost var all := RedactMembers(policy, value, 0, path);
      ghost var end := After(policy, Now(), all.secrets);
      NothingBefore(all.items);
      for i := 0 to |value.members|
        invariant members + RedactMembers(policy, value, i, path).items == all.items
        invariant After(policy, Now(), RedactMembers(policy, value, i, path).secrets) == end
      {
        var m := value.members[i];
        ghost var rest := RedactMembers(policy, value, i + 1, path);
        ghost var first := Redact(policy, m.value, path + "." + m.name, m.name);
        AfterChild(policy, Now(), i, first.secrets, rest.secrets);
        var json := Walk(m.value, path + "." + m.name, m.name);
        Assoc(members, [Member(m.name, json)], rest.items);
        members := members + [Member(m.name, json)];
      }
      assert members + [] == members;
      AfterNothing(policy, Now());
    }

    /** `parsed` is the body read as JSON, if it can be; `stringify` writes a value as JSON text. */
    method RedactJson(parsed: Option<Json>, stringify: Json -> string, prefix: string) returns (r: RedactedBody)
      modifies this
      ensures r == BodyOf(policy, parsed, stringify, prefix)
      ensures store == PutAll(policy, old(store), SecretsOf(policy, parsed, prefix))
      ensures r.Omitted? <==> parsed.None? || !(parsed.value.Arr? || parsed.value.Obj?)
      ensures r.Body? ==> forall path :: path in r.redactedFields <==> IsSecretPath(policy, parsed.value, prefix, path)
    {
      if parsed.None? || !(parsed.value.Arr? || parsed.value.Obj?) { return Omitted; }
      redactedFields, secretReferences := [], [];
      ghost var start := Now();
      var json := Walk(parsed.value, prefix, "");
      NothingBefore(Paths(SecretsOf(policy, parsed, prefix)));
      NothingBefore(Placeholders(policy, SecretsOf(policy, parsed, prefix)));
      r := Body(stringify(json), redactedFields, Unique(secretReferences));
      forall path ensures path in redactedFields <==> IsSecretPath(policy, parsed.value, prefix, path) {
        FieldsAreSecretPaths(policy, parsed.value, prefix, path);
      }
    }
  }

  /** The secrets taken out of a body. */
  function SecretsOf(p: Policy, parsed: Option<Json>, prefix: string): seq<Secret> {
    if parsed.None? || !(parsed.value.Arr? || parsed.value.Obj?) then []
      else Redact(p, parsed.value, prefix, "").secrets
  }

  function BodyOf(p: Policy, parsed: Option<Json>, stringify: Json -> string, prefix: string): RedactedBody {
    if parsed.None? || !(parsed.value.Arr? || parsed.value.Obj?) then Omitted else
      var r := Redact(p, parsed.value, prefix, "");
      Body(stringify(r.json), Paths(r.secrets), Unique(Placeholders(p, r.secrets)))
  }

  /** Bodies that differ only below sensitive fields give the same text, the same fields and the same references. */
  lemma BodiesDoNotShowSecrets(p: Policy, a: Json, b: Json, stringify: Json -> string, prefix: string)
    requires Alike(p, "", a, b)
    ensures BodyOf(p, Some(a), stringify, prefix) == BodyOf(p, Some(b), stringify, prefix)
  {
    SecretsDoNotShow(p, a, b, prefix, "");
    ErasedTrace(p, Redact(p, a, prefix, "").secrets);
    ErasedTrace(p, Redact(p, b, prefix, "").secrets);
  }

  // ----- what a reader of the field list would expect -----

  /**
   Equal but for what is below fields with sensitive names, whatever the names are; `named` tells whether
   there is one.
   */
  ghost predicate AlikeByName(p: Policy, named: bool, name: string, a: Json, b: Json)
    decreases a
  {
    || (named && p.sensitive(name))
    || a == b
    || (a.Arr? && b.Arr? && |a.items| == |b.items|
        && forall i :: 0 <= i < |a.items| ==> AlikeByName(p, false, "", a.items[i], b.items[i]))
    || (a.Obj? && b.Obj? && |a.members| == |b.members|
        && forall i :: 0 <= i < |a.members| ==>
             a.members[i].name == b.members[i].name
             && AlikeByName(p, true, a.members[i].name, a.members[i].value, b.members[i].value))
  }

  lemma {:induction false} NamesWillDo(p: Policy, named: bool, name: string, a: Json, b: Json)
    requires !p.sensitive("") && AlikeByName(p, named, name, a, b)
    ensures Alike(p, name, a, b)
    decreases a
  {
    if !(named && p.sensitive(name)) && a != b {
      if a.Arr? {
        forall i | 0 <= i < |a.items| ensures Alike(p, "", a.items[i], b.items[i]) {
          NamesWillDo(p, false, "", a.items[i], b.items[i]);
        }
      } else {
        forall i | 0 <= i < |a.members| ensures Alike(p, a.members[i].name, a.members[i].value, b.members[i].value) {
          NamesWillDo(p, true, a.members[i].name, a.members[i].value, b.members[i].value);
        }
      }
    }
  }

  const NULL_UNDER_EMPTY_NAME := Obj([Member("", Null)])
  const TRUE_UNDER_EMPTY_NAME := Obj([Member("", Bool(true))])

  /** A value whose only field has the empty name is not changed, be that name sensitive or not. */
  lemma EmptyNameIsShown(p: Policy, value: Json, path: string)
    requires value.Null? || value.Bool?
    ensures Redact(p, Obj([Member("", value)]), path, "") == Redaction(Obj([Member("", value)]), [])
  {
    var whole := Obj([Member("", value)]);
    assert RedactMembers(p, whole, 1, path) == Parts([], []);
    assert Redact(p, value, path + "." + "", "") == Redaction(value, []);
    assert [Member("", value)] + [] == whole.members;
  }

  lemma SensitiveEmptyNameShows(p: Policy, path: string)
    requires p.sensitive("")
    ensures AlikeByName(p, false, "", NULL_UNDER_EMPTY_NAME, TRUE_UNDER_EMPTY_NAME)
    ensures Redact(p, NULL_UNDER_EMPTY_NAME, path, "").json != Redact(p, TRUE_UNDER_EMPTY_NAME, path, "").json
  {
    EmptyNameIsShown(p, Null, path);
    EmptyNameIsShown(p, Bool(true), path);
    assert NULL_UNDER_EMPTY_NAME.members[0] != TRUE_UNDER_EMPTY_NAME.members[0];
  }

  /** Values below fields with sensitive names never show, unless the empty name is sensitive: then some do. */
  lemma NamesProtectExactly(p: Policy, path: string)
    ensures !p.sensitive("") <==>
      forall a, b :: AlikeByName(p, false, "", a, b) ==> Redact(p, a, path, "").json == Redact(p, b, path, "").json
  {
    if p.sensitive("") {
      SensitiveEmptyNameShows(p, path);
    } else {
      forall a, b | AlikeByName(p, false, "", a, b) ensures Redact(p, a, path, "").json == Redact(p, b, path, "").json {
        NamesWillDo(p, false, "", a, b);
        SecretsDoNotShow(p, a, b, path, "");
      }
    }
  }

  /** The same for whole bodies, with a writer that tells null from true. */
  lemma BodiesAreProtectedExactly(p: Policy, stringify: Json -> string, prefix: string)
    requires stringify(NULL_UNDER_EMPTY_NAME) != stringify(TRUE_UNDER_EMPTY_NAME)
    ensures !p.sensitive("") <==>
      forall a, b :: AlikeByName(p, false, "", a, b) ==>
        BodyOf(p, Some(a), stringify, prefix) == BodyOf(p, Some(b), stringify, prefix)
  {
    if p.sensitive("") {
      SensitiveEmptyNameShows(p, prefix);
      EmptyNameIsShown(p, Null, prefix);
      EmptyNameIsShown(p, Bool(true), prefix);
    } else {
      forall a, b | AlikeByName(p, false, "", a, b)
        ensures BodyOf(p, Some(a), stringify, prefix) == BodyOf(p, Some(b), stringify, prefix)
      {
        NamesWillDo(p, false, "", a, b);
        BodiesDoNotShowSecrets(p, a, b, stringify, prefix);
      }
    }
  }

  /** The part of a value that a position names. */
  function At(json: Json, position: seq<nat>): Option<Json>
    decreases |position|
  {
    if position == [] then Some(json) else
      match json
      case Arr(items) => if position[0] < |items| then At(items[position[0]], position[1..]) else None
      case Obj(members) => if position[0] < |members| then At(members[position[0]].value, position[1..]) else None
      case _ => None
  }

  lemma {:induction false} InUnder(i: nat, secrets: seq<Secret>, s: Secret)
    requires s in Under(i, secrets)
    ensures s.position != [] && s.position[0] == i && s.(position := s.position[1..]) in secrets
  {
    var first := secrets[0];
    if s == first.(position := [i] + first.position) {
      assert s.position[1..] == first.position;
    } else {
      InUnder(i, secrets[1..], s);
    }
  }

  ghost predicate Shown(p: Policy, input: Json, output: Json, s: Secret) {
    && At(output, s.position) == Some(Str("{{shuvgeist-secret:" + p.slot(s.path) + "}}"))
    && At(input, s.position) == Some(s.value)
  }

  lemma {:induction false} ItemsShown(p: Policy, value: Json, from: nat, path: string, s: Secret)
    requires value.Arr? && from <= |value.items| && s in RedactItems(p, value, from, path).secrets
    ensures s.position != [] && from <= s.position[0] < |value.items|
    ensures Shown(p, value.items[s.position[0]], RedactItems(p, value, from, path).items[s.position[0] - from],
                  s.(position := s.position[1..]))
    decreases value, 0, |value.items| - from
  {
    var at := ItemPath(p, path, from);
    var first, rest := Redact(p, value.items[from], at, ""), RedactItems(p, value, from + 1, path);
    if s in Under(from, first.secrets) {
      InUnder(from, first.secrets, s);
      SecretsAreShown(p, value.items[from], at, "", s.(position := s.position[1..]));
    } else {
      ItemsShown(p, value, from + 1, path, s);
    }
  }

  lemma {:induction false} MembersShown(p: Policy, value: Json, from: nat, path: string, s: Secret)
    requires value.Obj? && from <= |value.members| && s in RedactMembers(p, value, from, path).secrets
    ensures s.position != [] && from <= s.position[0] < |value.members|
    ensures Shown(p, value.members[s.position[0]].value,
                  RedactMembers(p, value, from, path).items[s.position[0] - from].value,
                  s.(position := s.position[1..]))
    decreases value, 0, |value.members| - from
  {
    var m := value.members[from];
    var first, rest := Redact(p, m.value, path + "." + m.name, m.name), RedactMembers(p, value, from + 1, path);
    if s in Under(from, first.secrets) {
      InUnder(from, first.secrets, s);
      SecretsAreShown(p, m.value, path + "." + m.name, m.name, s.(position := s.position[1..]));
    } else {
      MembersShown(p, value, from + 1, path, s);
    }
  }

  /** Where a secret was, the output shows its placeholder; the secret kept is the value that was there. */
  lemma {:induction false} SecretsAreShown(p: Policy, value: Json, path: string, name: string, s: Secret)
    requires s in Redact(p, value, path, name).secrets
    ensures Shown(p, value, Redact(p, value, path, name).json, s)
    decreases value, 1
  {
    if !ShouldRedact(p, name, value) {
      if value.Arr? { ItemsShown(p, value, 0, path, s); } else { MembersShown(p, value, 0, path, s); }
    }
  }

  // ----- what is replaced, exactly -----

  /** The name of the member at a position; the whole body and the items of an array have none. */
  function NameAt(json: Json, position: seq<nat>, name: string): string
    decreases |position|
  {
    if position == [] then name else
      match json
      case Arr(items) => if position[0] < |items| then NameAt(items[position[0]], position[1..], "") else ""
      case Obj(members) =>
        if position[0] < |members| then NameAt(members[position[0]].value, position[1..], members[position[0]].name)
        else ""
      case _ => ""
  }

  /** How a position is reported. */
  function PathAt(p: Policy, json: Json, position: seq<nat>, path: string): string
    decreases |position|
  {
    if position == [] then path else
      var (i, rest) := (position[0], position[1..]);
      match json
      case Arr(items) => if i < |items| then PathAt(p, items[i], rest, path + "[" + p.showIndex(i) + "]") else path
      case Obj(members) =>
        if i < |members| then PathAt(p, members[i].value, rest, path + "." + members[i].name) else path
      case _ => path
  }

  /**
   At this position stands a secret: the value of a member whose name is not empty, and the name is sensitive, or
   it is not safe and the value is a string that looks like a credential.
   */
  ghost predicate SecretAt(p: Policy, json: Json, position: seq<nat>, name: string) {
    At(json, position).Some? &&
    var (n, value) := (NameAt(json, position, name), At(json, position).value);
    n != "" && (p.sensitive(n) || (value.Str? && !p.safe(n) && p.credential(value.s)))
  }

  /** A secret that is not part of another one. */
  ghost predicate OutermostSecretAt(p: Policy, json: Json, position: seq<nat>, name: string) {
    SecretAt(p, json, position, name) && forall i :: 0 <= i < |position| ==> !SecretAt(p, json, position[..i], name)
  }

  ghost predicate TakenAt(secrets: seq<Secret>, position: seq<nat>, path: string) {
    exists s :: s in secrets && s.position == position && s.path == path
  }

  lemma {:induction false} TakenUnder(i: nat, secrets: seq<Secret>, position: seq<nat>, path: string)
    ensures TakenAt(Under(i, secrets), position, path) <==>
      position != [] && position[0] == i && TakenAt(secrets, position[1..], path)
  {
    if secrets != [] {
      var (first, moved, rest) := (secrets[0], secrets[0].(position := [i] + secrets[0].position), secrets[1..]);
      TakenUnder(i, rest, position, path);
      assert secrets == [first] + rest && Under(i, secrets) == [moved] + Under(i, rest);
      TakenFromBoth([moved], Under(i, rest), position, path);
      if position != [] {
        TakenFromBoth([first], rest, position[1..], path);
        assert position == [position[0]] + position[1..];
        assert moved.position == position <==> i == position[0] && first.position == position[1..];
        TakenFromOne(first, position[1..], path);
      }
      TakenFromOne(moved, position, path);
    }
  }

  lemma TakenFromOne(s: Secret, position: seq<nat>, path: string)
    ensures TakenAt([s], position, path) <==> s.position == position && s.path == path
  {
    assert s in [s];
  }

  lemma TakenFromBoth(a: seq<Secret>, b: seq<Secret>, position: seq<nat>, path: string)
    ensures TakenAt(a + b, position, path) <==> TakenAt(a, position, path) || TakenAt(b, position, path)
  {
    assert forall s :: s in a + b <==> s in a || s in b;
  }

  lemma {:induction false} ItemsTaken(p: Policy, value: Json, from: nat, path: string, position: seq<nat>, at: string)
    requires value.Arr? && from <= |value.items|
    ensures TakenAt(RedactItems(p, value, from, path).secrets, position, at) <==>
      && position != [] && from <= position[0] < |value.items|
      && TakenAt(Redact(p, value.items[position[0]], ItemPath(p, path, position[0]), "").secrets, position[1..], at)
    decreases |value.items| - from
  {
    if from < |value.items| {
      var first := Redact(p, value.items[from], ItemPath(p, path, from), "").secrets;
      TakenFromBoth(Under(from, first), RedactItems(p, value, from + 1, path).secrets, position, at);
      TakenUnder(from, first, position, at);
      ItemsTaken(p, value, from + 1, path, position, at);
    }
  }

  lemma {:induction false} MembersTaken(p: Policy, value: Json, from: nat, path: string,
                                        position: seq<nat>, at: string)
    requires value.Obj? && from <= |value.members|
    ensures TakenAt(RedactMembers(p, value, from, path).secrets, position, at) <==>
      && position != [] && from <= position[0] < |value.members|
      && var m := value.members[position[0]];
      TakenAt(Redact(p, m.value, path + "." + m.name, m.name).secrets, position[1..], at)
    decreases |value.members| - from
  {
    if from < |value.members| {
      var m := value.members[from];
      var first := Redact(p, m.value, path + "." + m.name, m.name).secrets;
      TakenFromBoth(Under(from, first), RedactMembers(p, value, from + 1, path).secrets, position, at);
      TakenUnder(from, first, position, at);
      MembersTaken(p, value, from + 1, path, position, at);
    }
  }

  /** Going down to a child, once the value itself is no secret. */
  lemma OutermostBelow(p: Policy, json: Json, position: seq<nat>, name: string, child: Json, childName: string)
    requires position != [] && !SecretAt(p, json, [], name)
    requires json.Arr? ==> position[0] < |json.items| && child == json.items[position[0]] && childName == ""
    requires json.Obj? ==> position[0] < |json.members| && Member(childName, child) == json.members[position[0]]
    requires json.Arr? || json.Obj?
    ensures OutermostSecretAt(p, json, position, name) <==> OutermostSecretAt(p, child, position[1..], childName)
  {
    forall i | 0 < i <= |position|
      ensures SecretAt(p, json, position[..i], name) <==> SecretAt(p, child, position[1..][..i - 1], childName)
    {
      assert position[..i][1..] == position[1..][..i - 1];
    }
    assert position[..|position|] == position && position[1..][..|position| - 1] == position[1..];
    assert position[..0] == [];
    if OutermostSecretAt(p, json, position, name) {
      forall i | 0 <= i < |position[1..]| ensures !SecretAt(p, child, position[1..][..i], childName) {
        assert !SecretAt(p, json, position[..i + 1], name);
      }
    }
    if OutermostSecretAt(p, child, position[1..], childName) {
      forall i | 0 <= i < |position| ensures !SecretAt(p, json, position[..i], name) {
        if i > 0 { assert !SecretAt(p, child, position[1..][..i - 1], childName); }
      }
    }
  }

  /** Exactly the outermost secrets are replaced, and each is reported by the path of its position. */
  lemma {:induction false} OutermostSecretsAreReplaced(p: Policy, value: Json, path: string, name: string,
                                                       position: seq<nat>, at: string)
    ensures TakenAt(Redact(p, value, path, name).secrets, position, at) <==>
      OutermostSecretAt(p, value, position, name) && at == PathAt(p, value, position, path)
    decreases |position|
  {
    assert At(value, []) == Some(value) && NameAt(value, [], name) == name;
    if SecretAt(p, value, [], name) {
      TakenFromOne(Secret([], path, value), position, at);
      if position != [] { assert position[..0] == []; }
    } else if value.Arr? {
      ItemsTaken(p, value, 0, path, position, at);
      if position != [] && position[0] < |value.items| {
        var i := position[0];
        OutermostBelow(p, value, position, name, value.items[i], "");
        OutermostSecretsAreReplaced(p, value.items[i], ItemPath(p, path, i), "", position[1..], at);
      }
    } else if value.Obj? {
      MembersTaken(p, value, 0, path, position, at);
      if position != [] && position[0] < |value.members| {
        var m := value.members[position[0]];
        OutermostBelow(p, value, position, name, m.value, m.name);
        OutermostSecretsAreReplaced(p, m.value, path + "." + m.name, m.name, position[1..], at);
      }
    }
  }

  /**
   Below no replaced value, a value is replaced exactly when it is a secret: nothing is missed and nothing is
   replaced needlessly.
   */
  lemma ReplacedExactly(p: Policy, value: Json, path: string, name: string, position: seq<nat>)
    requires forall i :: 0 <= i < |position| ==> !ReplacedAt(Redact(p, value, path, name).secrets, position[..i])
    ensures ReplacedAt(Redact(p, value, path, name).secrets, position) <==> SecretAt(p, value, position, name)
  {
    var secrets := Redact(p, value, path, name).secrets;
    forall i | 0 <= i <= |position|
      ensures ReplacedAt(secrets, position[..i]) <==> OutermostSecretAt(p, value, position[..i], name)
    {
      ReplacedIsOutermost(p, value, path, name, position[..i]);
    }
    NoneAbove(p, value, name, position, |position|);
    assert position[..|position|] == position;
  }

  ghost predicate ReplacedAt(secrets: seq<Secret>, position: seq<nat>) {
    exists s :: s in secrets && s.position == position
  }

  lemma ReplacedIsOutermost(p: Policy, value: Json, path: string, name: string, position: seq<nat>)
    ensures ReplacedAt(Redact(p, value, path, name).secrets, position) <==> OutermostSecretAt(p, value, position, name)
  {
    var secrets := Redact(p, value, path, name).secrets;
    OutermostSecretsAreReplaced(p, value, path, name, position, PathAt(p, value, position, path));
    if ReplacedAt(secrets, position) {
      var s :| s in secrets && s.position == position;
      OutermostSecretsAreReplaced(p, value, path, name, position, s.path);
      assert TakenAt(secrets, position, s.path);
    }
  }

  /** The shortest position of a secret is that of an outermost one. */
  lemma {:induction false} NoneAbove(p: Policy, value: Json, name: string, position: seq<nat>, n: nat)
    requires n <= |position|
    requires forall i :: 0 <= i < n ==> !OutermostSecretAt(p, value, position[..i], name)
    ensures forall i :: 0 <= i < n ==> !SecretAt(p, value, position[..i], name)
    decreases n
  {
    if n > 0 {
      NoneAbove(p, value, name, position, n - 1);
      var above := position[..n - 1];
      forall i | 0 <= i < |above| ensures !SecretAt(p, value, above[..i], name) {
        assert above[..i] == position[..i];
      }
    }
  }

  lemma {:induction false} InPaths(secrets: seq<Secret>, path: string)
    ensures path in Paths(secrets) <==> exists s :: s in secrets && s.path == path
  {
    if secrets != [] {
      InPaths(secrets[1..], path);
      assert secrets == [secrets[0]] + secrets[1..];
      assert secrets[0] in secrets;
    }
  }

  /** The path of an outermost secret of this body. */
  ghost predicate IsSecretPath(p: Policy, body: Json, prefix: string, path: string) {
    exists position :: OutermostSecretAt(p, body, position, "") && path == PathAt(p, body, position, prefix)
  }

  lemma FieldsAreSecretPaths(p: Policy, body: Json, prefix: string, path: string)
    ensures path in Paths(Redact(p, body, prefix, "").secrets) <==> IsSecretPath(p, body, prefix, path)
  {
    var secrets := Redact(p, body, prefix, "").secrets;
    InPaths(secrets, path);
    if path in Paths(secrets) {
      var s :| s in secrets && s.path == path;
      OutermostSecretsAreReplaced(p, body, prefix, "", s.position, path);
      assert TakenAt(secrets, s.position, path);
    }
    if IsSecretPath(p, body, prefix, path) {
      var position :| OutermostSecretAt(p, body, position, "") && path == PathAt(p, body, position, prefix);
      OutermostSecretsAreReplaced(p, body, prefix, "", position, path);
    }
  }

  /** A stored record is found under its slot, unless a later secret of the same slot took its place. */
  lemma {:induction false} SecretsAreStored(p: Policy, store: map<string, SecretRecord>, secrets: seq<Secret>, i: nat)
    requires i < |secrets|
    requires forall j :: i < j < |secrets| ==> p.slot(secrets[j].path) != p.slot(secrets[i].path)
    ensures var slot := p.slot(secrets[i].path);
      && slot in PutAll(p, store, secrets)
      && PutAll(p, store, secrets)[slot] ==
           SecretRecord(slot, "{{shuvgeist-secret:" + slot + "}}", secrets[i].path, p.serialize(secrets[i].value))
    decreases |secrets|
  {
    var next := store[p.slot(secrets[0].path) := RecordOf(p, secrets[0])];
    if i > 0 {
      SecretsAreStored(p, next, secrets[1..], i - 1);
    } else {
      OthersStay(p, next, secrets[1..], p.slot(secrets[0].path));
    }
  }

  lemma {:induction false} OthersStay(p: Policy, store: map<string, SecretRecord>, secrets: seq<Secret>, slot: string)
    requires slot in store && forall j :: 0 <= j < |secrets| ==> p.slot(secrets[j].path) != slot
    ensures slot in PutAll(p, store, secrets) && PutAll(p, store, secrets)[slot] == store[slot]
    decreases |secrets|
  {
    if secrets != [] {
      assert p.slot(secrets[0].path) != slot;
      OthersStay(p, store[p.slot(secrets[0].path) := RecordOf(p, secrets[0])], secrets[1..], slot);
    }
  }
}
