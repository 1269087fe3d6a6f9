/** Any number of items composing their schemas at once: `ComposeSchema` is a `GetItem` and, on a
    miss, a later `FindOrInsert`, with other calls in between. */
module SchemaRuns {
  import opened Text
  import opened SchemaCache

  /** One call of `ComposeSchema` on an item with columns `f`. */
  datatype Call =
    | Looking(f: Schema)
    | Missed(f: Schema)
    | Emitted(f: Schema, id: nat, text: string)
    | Threw(f: Schema, error: Error)

  datatype State = State(cache: map<string, Entry>, calls: seq<Call>)

  datatype Action = Begin(f: Schema) | LookUp(i: nat) | Insert(i: nat)

  function Init(): State {
    State(map[], [])
  }

  function LookUpStep(cache: map<string, Entry>, f: Schema): Call {
    match GetItemSpec(cache, Key(f))
    case Err(e) => Threw(f, e)
    case Ok(Some(entry)) => Emitted(f, entry.0, entry.1)
    case Ok(None) => Missed(f)
  }

  function InsertStep(cache: map<string, Entry>, f: Schema): (map<string, Entry>, Call) {
    match FindOrInsertSpec(cache, Key(f), SchemaArray(f))
    case (cache', Ok(id)) => (cache', Emitted(f, id, SchemaArray(f)))
    case (cache', Err(e)) => (cache', Threw(f, e))
  }

  /** An action that does not apply changes nothing, so every sequence of actions is a run. */
  function Step(s: State, a: Action): State {
    match a
    case Begin(f) => s.(calls := s.calls + [Looking(f)])
    case LookUp(i) =>
      if i < |s.calls| && s.calls[i].Looking? then s.(calls := s.calls[i := LookUpStep(s.cache, s.calls[i].f)]) else s
    case Insert(i) =>
      if i < |s.calls| && s.calls[i].Missed? then
        var (cache, call) := InsertStep(s.cache, s.calls[i].f);
        State(cache, s.calls[i := call])
      else s
  }

  function Run(actions: seq<Action>): State {
    if actions == [] then Init() else Step(Run(actions[..|actions| - 1]), actions[|actions| - 1])
  }

  /** The schemas a run is about are among `used`. */
  ghost predicate Within(actions: seq<Action>, used: set<Schema>) {
    forall i :: 0 <= i < |actions| && actions[i].Begin? ==> actions[i].f in used
  }

  ghost predicate AllTyped(used: set<Schema>) {
    forall f <- used :: Typed(f)
  }

  /** No two of the schemas have the same key and different arrays. */
  ghost predicate CollisionFree(used: set<Schema>) {
    forall a, b :: a in used && b in used && Key(a) == Key(b) ==> SchemaArray(a) == SchemaArray(b)
  }

  /** Every call that has finished emitted the array composed from its own columns. */
  ghost predicate Transparent(s: State) {
    forall i :: 0 <= i < |s.calls| ==>
      !s.calls[i].Threw? && (s.calls[i].Emitted? ==> s.calls[i].text == SchemaArray(s.calls[i].f))
  }

  // ----- what every run keeps

  ghost predicate CallOk(cache: map<string, Entry>, used: set<Schema>, call: Call) {
    && call.f in used && (call.Threw? ==> call.f == []) && (call.Missed? || call.Emitted? ==> call.f != [])
    && (call.Emitted? ==> Key(call.f) in cache && cache[Key(call.f)] == (call.id, call.text))
  }

  ghost predicate Inv(used: set<Schema>, s: State) {
    && IdsDense(s.cache)
    && EntriesMatch(s.cache, used)
    && (forall i :: 0 <= i < |s.calls| ==> CallOk(s.cache, used, s.calls[i]))
  }

  /** Every schema in use that has an entry has its own array there. */
  ghost predicate EntriesMatch(cache: map<string, Entry>, used: set<Schema>) {
    forall f <- used :: Key(f) in cache ==> cache[Key(f)].1 == SchemaArray(f)
  }

  lemma InsertKeepsCache(used: set<Schema>, cache: map<string, Entry>, f: Schema)
    requires CollisionFree(used) && IdsDense(cache) && EntriesMatch(cache, used)
    requires f in used && f != [] && Typed(f)
    ensures InsertStep(cache, f).1.Emitted?
    ensures var (cache', call) := InsertStep(cache, f);
      && IdsDense(cache') && EntriesMatch(cache', used) && CallOk(cache', used, call)
      && forall k <- cache :: k in cache' && cache'[k] == cache[k]
  {
    KeyNotEmpty(f);
    if Key(f) !in cache {
      NewIdKeepsDense(cache, Key(f), SchemaArray(f));
    }
  }

  lemma InsertKeepsInv(used: set<Schema>, s: State, i: nat)
    requires AllTyped(used) && CollisionFree(used) && Inv(used, s) && i < |s.calls| && s.calls[i].Missed?
    ensures Inv(used, Step(s, Insert(i)))
  {
    var s' := Step(s, Insert(i));
    assert CallOk(s.cache, used, s.calls[i]);
    InsertKeepsCache(used, s.cache, s.calls[i].f);
    forall j | 0 <= j < |s'.calls| ensures CallOk(s'.cache, used, s'.calls[j]) {
      assert CallOk(s.cache, used, s.calls[j]);
    }
  }

  lemma StepKeepsInv(used: set<Schema>, s: State, a: Action)
    requires AllTyped(used) && CollisionFree(used) && Inv(used, s)
    requires a.Begin? ==> a.f in used
    ensures Inv(used, Step(s, a))
  {
    match a
    case Begin(f) =>
    case LookUp(i) =>
      if i < |s.calls| && s.calls[i].Looking? {
        assert CallOk(s.cache, used, s.calls[i]);
        KeyNotEmpty(s.calls[i].f);
      }
    case Insert(i) =>
      if i < |s.calls| && s.calls[i].Missed? {
        InsertKeepsInv(used, s, i);
      }
  }

  lemma {:induction false} RunKeepsInv(used: set<Schema>, actions: seq<Action>)
    requires AllTyped(used) && CollisionFree(used) && Within(actions, used)
    ensures Inv(used, Run(actions))
    decreases |actions|
  {
    if actions != [] {
      RunKeepsInv(used, actions[..|actions| - 1]);
      StepKeepsInv(used, Run(actions[..|actions| - 1]), actions[|actions| - 1]);
    }
  }

  /** A call throws exactly when it has no columns, and otherwise emits its own schema. */
  ghost predicate OwnOrThrew(call: Call) {
    && (call.Threw? <==> call.f == [] && !call.Looking?)
    && (call.Emitted? ==> call.text == SchemaArray(call.f))
  }

  lemma NoCollisionIsOwn(used: set<Schema>, actions: seq<Action>)
    requires AllTyped(used) && CollisionFree(used) && Within(actions, used)
    ensures forall i :: 0 <= i < |Run(actions).calls| ==> OwnOrThrew(Run(actions).calls[i])
  {
    RunKeepsInv(used, actions);
    var s := Run(actions);
    forall i | 0 <= i < |s.calls| ensures OwnOrThrew(s.calls[i]) {
      assert CallOk(s.cache, used, s.calls[i]);
    }
  }

  lemma NoCollisionIsTransparent(used: set<Schema>, actions: seq<Action>)
    requires AllTyped(used) && CollisionFree(used) && [] !in used && Within(actions, used)
    ensures Transparent(Run(actions))
  {
    RunKeepsInv(used, actions);
    var s := Run(actions);
    forall i | 0 <= i < |s.calls|
      ensures !s.calls[i].Threw? && (s.calls[i].Emitted? ==> s.calls[i].text == SchemaArray(s.calls[i].f))
    {
      assert CallOk(s.cache, used, s.calls[i]);
    }
  }

  /** An item without fields: its key is empty, and `GetItem` throws. */
  lemma NoFieldsThrows(used: set<Schema>) returns (actions: seq<Action>)
    requires [] in used
    ensures Within(actions, used) && !Transparent(Run(actions))
  {
    actions := [Begin([]), LookUp(0)];
    RunSnoc([], Begin([]));
    RunSnoc([Begin([])], LookUp(0));
    assert [] + [Begin([])] == [Begin([])] && [Begin([])] + [LookUp(0)] == actions;
    assert Run(actions).calls == [Threw([], InvalidArgument)];
    assert Run(actions).calls[0].Threw?;
  }

  /** Two colliding items in a row: the second gets the first one's schema. */
  function CollisionRun(a: Schema, b: Schema): seq<Action> {
    [Begin(a), LookUp(0), Insert(0), Begin(b), LookUp(1)]
  }

  lemma RunSnoc(actions: seq<Action>, a: Action)
    ensures Run(actions + [a]) == Step(Run(actions), a)
  {
    assert (actions + [a])[..|actions|] == actions;
  }

  /** The first item alone. */
  lemma FirstItem(a: Schema)
    requires a != [] && Typed(a)
    ensures Run([Begin(a), LookUp(0), Insert(0)]) ==
      State(map[Key(a) := (1, SchemaArray(a))], [Emitted(a, 1, SchemaArray(a))])
  {
    KeyNotEmpty(a);
    RunSnoc([], Begin(a));
    RunSnoc([Begin(a)], LookUp(0));
    RunSnoc([Begin(a), LookUp(0)], Insert(0));
    assert [] + [Begin(a)] == [Begin(a)] && [Begin(a)] + [LookUp(0)] == [Begin(a), LookUp(0)];
    assert [Begin(a), LookUp(0)] + [Insert(0)] == [Begin(a), LookUp(0), Insert(0)];
  }

  lemma CollisionShows(a: Schema, b: Schema)
    requires a != [] && Typed(a) && Key(a) == Key(b)
    ensures Run(CollisionRun(a, b)).calls == [Emitted(a, 1, SchemaArray(a)), Emitted(b, 1, SchemaArray(a))]
  {
    var first := [Begin(a), LookUp(0), Insert(0)];
    FirstItem(a);
    KeyNotEmpty(a);
    RunSnoc(first, Begin(b));
    RunSnoc(first + [Begin(b)], LookUp(1));
    assert first + [Begin(b)] + [LookUp(1)] == CollisionRun(a, b);
  }

  /** Two colliding items in a row, both in use: a run that is not transparent. */
  lemma CollisionBreaks(used: set<Schema>, a: Schema, b: Schema) returns (actions: seq<Action>)
    requires AllTyped(used) && a in used && b in used && Key(a) == Key(b) && SchemaArray(a) != SchemaArray(b)
    ensures Within(actions, used) && !Transparent(Run(actions))
  {
    actions := CollisionRun(a, b);
    CollisionShows(a, b);
    var calls := Run(actions).calls;
    assert calls[1].Emitted? && calls[1].text != SchemaArray(calls[1].f);
  }

  // ----- the theorems

  /** Cache transparency, with its exact condition: whatever schemas items may use, every
      interleaving emits for each item the schema composed from its own columns, and nothing
      throws, if and only if every item has a field and no two of the schemas collide on the key. */
  lemma TransparentIffCollisionFree(used: set<Schema>)
    requires AllTyped(used)
    ensures [] !in used && CollisionFree(used) <==>
      forall actions :: Within(actions, used) ==> Transparent(Run(actions))
  {
    if [] in used {
      var actions := NoFieldsThrows(used);
    } else if CollisionFree(used) {
      forall actions | Within(actions, used) ensures Transparent(Run(actions)) {
        NoCollisionIsTransparent(used, actions);
      }
    } else {
      var a, b :| a in used && b in used && Key(a) == Key(b) && SchemaArray(a) != SchemaArray(b);
      var actions := CollisionBreaks(used, a, b);
    }
  }

  lemma UnmarkedNamesDoNotCollide(used: set<Schema>)
    requires forall f <- used :: AllUnmarked(f)
    ensures CollisionFree(used)
  {
    forall a, b | a in used && b in used && Key(a) == Key(b) ensures a == b {
      KeyInjective(a, b);
    }
  }

  /** For column names without "FT_", and any interleaving: every emitted schema is the freshly
      composed one, exactly the items without fields throw, two items share an id exactly when
      their columns are equal, and the ids handed out are exactly 1..n for n schemas. */
  lemma UnmarkedNamesAreSafe(used: set<Schema>, actions: seq<Action>)
    requires (forall f <- used :: AllUnmarked(f)) && Within(actions, used)
    ensures IdsDense(Run(actions).cache)
    ensures forall i :: 0 <= i < |Run(actions).calls| ==> OwnOrThrew(Run(actions).calls[i])
    ensures var calls := Run(actions).calls;
      forall i, j :: 0 <= i < |calls| && 0 <= j < |calls| && calls[i].Emitted? && calls[j].Emitted? ==>
        (calls[i].id == calls[j].id <==> calls[i].f == calls[j].f)
  {
    UnmarkedNamesDoNotCollide(used);
    NoCollisionIsOwn(used, actions);
    RunKeepsInv(used, actions);
    var s := Run(actions);
    forall i, j | 0 <= i < |s.calls| && 0 <= j < |s.calls| && s.calls[i].Emitted? && s.calls[j].Emitted?
      ensures s.calls[i].id == s.calls[j].id <==> s.calls[i].f == s.calls[j].f
    {
      assert CallOk(s.cache, used, s.calls[i]) && CallOk(s.cache, used, s.calls[j]);
      if s.calls[i].id == s.calls[j].id {
        KeyInjective(s.calls[i].f, s.calls[j].f);
      }
    }
  }
}
