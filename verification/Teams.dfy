/** The app's team cache: entities with a computed primary key, and deferred saves to a Realm. */
module Teams {
  import opened Options
  import opened RealmWrite

  datatype TeamModel = TeamModel(logoAddress: string, name: string, abbreviatedName: string, location: string)

  datatype TeamRealmEntity = TeamRealmEntity(
    id: string, logoAddress: string, name: string, abbreviatedName: string, location: string)

  /** The computed primary key. */
  function Id(name: string, abbreviatedName: string): string {
    name + "-" + abbreviatedName
  }

  function Entity(m: TeamModel): TeamRealmEntity {
    TeamRealmEntity(Id(m.name, m.abbreviatedName), m.logoAddress, m.name, m.abbreviatedName, m.location)
  }

  function AsDomain(e: TeamRealmEntity): TeamModel {
    TeamModel(e.logoAddress, e.name, e.abbreviatedName, e.location)
  }

  function IdOf(m: TeamModel): string {
    Id(m.name, m.abbreviatedName)
  }

  // ---------- When ids collide ----------

  /** One pair reads as another by moving a dash between the two parts. */
  ghost predicate Reads(n: string, a: string, n': string, a': string) {
    exists x: string :: n' == n + "-" + x && a == x + "-" + a'
  }

  lemma IdSplit(n: string, a: string, n': string, a': string)
    requires Id(n, a) == Id(n', a') && |n| < |n'|
    ensures Reads(n, a, n', a')
  {
    var s := Id(n, a);
    var x := n'[|n| + 1..];
    assert n' == s[..|n'|] && n == s[..|n|];
    assert s[|n|] == '-' && n'[|n|] == '-';
    assert n' == n + "-" + x;
    assert s[|n| + 1..] == a;
    assert s[|n| + 1..] == x + "-" + a';
  }

  lemma ReadsCollides(n: string, a: string, n': string, a': string)
    requires Reads(n, a, n', a')
    ensures Id(n, a) == Id(n', a') && n != n'
  {
    var x: string :| n' == n + "-" + x && a == x + "-" + a';
    assert Id(n', a') == n + "-" + (x + "-" + a');
  }

  lemma ReadsHasDash(n: string, a: string, n': string, a': string)
    requires Reads(n, a, n', a')
    ensures '-' in a
  {
    var x: string :| n' == n + "-" + x && a == x + "-" + a';
    assert a[|x|] == '-';
  }

  /** Two teams collide on the computed id exactly when they are the same pair or one reads as the other. */
  lemma IdCollision(n: string, a: string, n': string, a': string)
    ensures Id(n, a) == Id(n', a') <==> (n == n' && a == a') || Reads(n, a, n', a') || Reads(n', a', n, a)
  {
    if Id(n, a) == Id(n', a') {
      if |n| < |n'| { IdSplit(n, a, n', a'); }
      else if |n'| < |n| { IdSplit(n', a', n, a); }
      else {
        assert n == Id(n, a)[..|n|] == n';
        assert a == Id(n, a)[|n| + 1..] == a';
      }
    }
    if Reads(n, a, n', a') { ReadsCollides(n, a, n', a'); }
    if Reads(n', a', n, a) { ReadsCollides(n', a', n, a); }
  }

  /** Dash-free abbreviations never collide. */
  lemma DashFreeIdsAreUnique(n: string, a: string, n': string, a': string)
    requires '-' !in a && '-' !in a' && Id(n, a) == Id(n', a')
    ensures n == n' && a == a'
  {
    IdCollision(n, a, n', a');
    if Reads(n, a, n', a') {
      ReadsHasDash(n, a, n', a');
    } else if Reads(n', a', n, a) {
      ReadsHasDash(n', a', n, a);
    }
  }

  /** With dashes they do: two different teams that share an id. */
  lemma DashedIdsCollide()
    ensures Id("A", "B-C") == Id("A-B", "C")
  {
    ReadsCollidesWitness("A", "B", "C");
  }

  lemma ReadsCollidesWitness(n: string, x: string, a: string)
    ensures Id(n, x + "-" + a) == Id(n + "-" + x, a)
  {
    assert n + "-" + (x + "-" + a) == n + "-" + x + "-" + a;
  }

  // ---------- The store ----------

  /** The stored entities by primary key. */
  type Store = map<string, TeamRealmEntity>

  /** Every entity is stored under its id, and its id is the computed one. */
  ghost predicate Keyed(s: Store) {
    forall id :: id in s ==> s[id].id == id && IdOf(AsDomain(s[id])) == id
  }

  /** add(_:update: .all) of one object. */
  function Upsert(s: Store, e: TeamRealmEntity): Store {
    s[e.id := e]
  }

  function Saved(s: Store, models: seq<TeamModel>): Store {
    if models == [] then s
    else Upsert(Saved(s, models[..|models| - 1]), Entity(models[|models| - 1]))
  }

  function SavedAll(s: Store, batches: seq<seq<TeamModel>>): Store {
    if batches == [] then s
    else Saved(SavedAll(s, batches[..|batches| - 1]), batches[|batches| - 1])
  }

  function Flatten(batches: seq<seq<TeamModel>>): seq<TeamModel> {
    if batches == [] then [] else Flatten(batches[..|batches| - 1]) + batches[|batches| - 1]
  }

  lemma {:induction false} SavedConcat(s: Store, ms: seq<TeamModel>, ns: seq<TeamModel>)
    ensures Saved(s, ms + ns) == Saved(Saved(s, ms), ns)
  {
    if ns == [] {
      assert ms + ns == ms;
    } else {
      assert (ms + ns)[..|ms + ns| - 1] == ms + ns[..|ns| - 1];
      SavedConcat(s, ms, ns[..|ns| - 1]);
    }
  }

  lemma {:induction false} SavedAllIsSaved(s: Store, batches: seq<seq<TeamModel>>)
    ensures SavedAll(s, batches) == Saved(s, Flatten(batches))
  {
    if batches == [] {
    } else {
      SavedAllIsSaved(s, batches[..|batches| - 1]);
      SavedConcat(s, Flatten(batches[..|batches| - 1]), batches[|batches| - 1]);
    }
  }

  /** The last model with an id, if any. */
  function LastWith(models: seq<TeamModel>, id: string): Option<TeamModel> {
    if models == [] then None
    else if IdOf(models[|models| - 1]) == id then Some(models[|models| - 1])
    else LastWith(models[..|models| - 1], id)
  }

  /** Last writer wins: every id holds the last model saved under it, and otherwise what it held before. */
  lemma {:induction false} LastWriterWins(s: Store, models: seq<TeamModel>, id: string)
    ensures id in Saved(s, models) <==> id in s || LastWith(models, id).Some?
    ensures LastWith(models, id).Some? ==> Saved(s, models)[id] == Entity(LastWith(models, id).value)
    ensures LastWith(models, id).Some? ==>
      var e, m := Saved(s, models)[id], LastWith(models, id).value;
      && e.id == id && e.name == m.name && e.abbreviatedName == m.abbreviatedName
      && e.logoAddress == m.logoAddress && e.location == m.location
    ensures LastWith(models, id).None? && id in s ==> Saved(s, models)[id] == s[id]
    ensures Keyed(s) ==> Keyed(Saved(s, models))
  {
    if models == [] {
    } else {
      LastWriterWins(s, models[..|models| - 1], id);
    }
  }

  /** Saving the same models again, at once or as a later batch, changes nothing. */
  lemma ResavingIsIdempotent(s: Store, models: seq<TeamModel>)
    ensures Saved(Saved(s, models), models) == Saved(s, models)
  {
    var once := Saved(s, models);
    forall id
      ensures id in Saved(once, models) <==> id in once
      ensures id in once ==> Saved(once, models)[id] == once[id]
    {
      LastWriterWins(s, models, id);
      LastWriterWins(once, models, id);
    }
  }

  ghost predicate DistinctIds(models: seq<TeamModel>) {
    forall i, j :: 0 <= i < j < |models| ==> IdOf(models[i]) != IdOf(models[j])
  }

  lemma {:induction false} DistinctIdsAreLast(models: seq<TeamModel>, i: nat)
    requires DistinctIds(models) && i < |models|
    ensures LastWith(models, IdOf(models[i])) == Some(models[i])
  {
    if i == |models| - 1 {
    } else {
      DistinctIdsAreLast(models[..|models| - 1], i);
    }
  }

  // ---------- The repository ----------

  /** realm.add(entities, update: .all) inside write: one edit per entity, in order. */
  function AddSteps(models: seq<TeamModel>): seq<Step<Store, ()>> {
    if models == [] then []
    else AddSteps(models[..|models| - 1]) + [Edit(s => Upsert(s, Entity(models[|models| - 1])))]
  }

  lemma {:induction false} AddStepsOnlyEdit(models: seq<TeamModel>)
    ensures OnlyEdits(AddSteps(models)) && !Throws(AddSteps(models))
  {
    if models == [] {
    } else {
      AddStepsOnlyEdit(models[..|models| - 1]);
    }
  }

  lemma {:induction false} AppliedConcat<D>(d: D, fs: seq<D -> D>, gs: seq<D -> D>)
    ensures Applied(d, fs + gs) == Applied(Applied(d, fs), gs)
  {
    if fs == [] {
      assert fs + gs == gs;
    } else {
      assert (fs + gs)[1..] == fs[1..] + gs;
      AppliedConcat(fs[0](d), fs[1..], gs);
    }
  }

  lemma {:induction false} EditsConcat<D, E>(ss: seq<Step<D, E>>, ts: seq<Step<D, E>>)
    ensures Edits(ss + ts) == Edits(ss) + Edits(ts)
  {
    if ss == [] {
      assert ss + ts == ts;
    } else {
      assert (ss + ts)[1..] == ss[1..] + ts;
      EditsConcat(ss[1..], ts);
    }
  }

  lemma {:induction false} AddStepsSave(s: Store, models: seq<TeamModel>)
    ensures Applied(s, Edits(AddSteps(models))) == Saved(s, models)
  {
    if models == [] {
    } else {
      var front, last := models[..|models| - 1], models[|models| - 1];
      var step: Step<Store, ()> := AddSteps(models)[|AddSteps(front)|];
      assert AddSteps(models) == AddSteps(front) + [step];
      AddStepsSave(s, front);
      EditsConcat(AddSteps(front), [step]);
      assert [step][1..] == [] && Edits([step]) == [step.change];
      AppliedConcat(s, Edits(AddSteps(front)), [step.change]);
      assert [step.change][1..] == [];
    }
  }

  class TeamsRealmRepository {
    const realm: Realm<Store>
    /** The blocks save has put on the main queue and the main queue has not run yet. */
    var queue: seq<seq<TeamModel>>
    /** Every save so far, and how many of them the main queue has run. */
    ghost var initial: Store
    ghost var issued: seq<seq<TeamModel>>
    ghost var executed: nat

    /** The store is the upsert of a prefix of the issued saves, and the queue is the rest of them. */
    ghost predicate Valid()
      reads this, realm
    {
      && realm.Valid() && !realm.isInWriteTransaction
      && Keyed(initial)
      && executed <= |issued|
      && queue == issued[executed..]
      && realm.data == SavedAll(initial, issued[..executed])
    }

    constructor (store: Store)
      requires Keyed(store)
      ensures Valid() && fresh(realm)
      ensures realm.data == store && issued == [] && executed == 0
    {
      realm := new Realm(store);
      queue, initial, issued, executed := [], store, [], 0;
    }

    method Save(domainModels: seq<TeamModel>)
      requires Valid()
      modifies this`queue, this`issued
      ensures Valid() && issued == old(issued) + [domainModels]
    {
      queue := queue + [domainModels];
      issued := issued + [domainModels];
      assert issued[..executed] == old(issued)[..executed];
    }

    /** The main queue runs the next block, if there is one. */
    method RunNext()
      requires Valid()
      modifies this`queue, this`executed, realm
      ensures Valid()
      ensures executed == if old(queue) == [] then old(executed) else old(executed) + 1
      ensures realm.data == if old(queue) == [] then old(realm.data) else Saved(old(realm.data), old(queue)[0])
    {
      if |queue| > 0 {
        var models := queue[0];
        AddStepsOnlyEdit(models);
        ReturnCommitsAll(AddSteps(models));
        AddStepsSave(realm.data, models);
        var r := realm.Write(AddSteps(models));
        queue := queue[1..];
        executed := executed + 1;
        assert issued[..executed][..executed - 1] == issued[..executed - 1];
      }
    }

    method RunAll()
      requires Valid()
      modifies this`queue, this`executed, realm
      ensures Valid() && queue == [] && executed == |issued|
      ensures realm.data == SavedAll(initial, issued)
    {
      while |queue| > 0
        invariant Valid()
      {
        RunNext();
      }
      assert issued[..|issued|] == issued;
    }

    /** The stored teams, once each, in an order of Realm's choosing. */
    method Get() returns (models: seq<TeamModel>)
      requires Valid()
      ensures Lists(models, realm.data)
    {
      ghost var s := realm.data;
      var rest := realm.data;
      var ids: seq<string> := [];
      models := [];
      while rest.Keys != {}
        invariant rest.Keys <= s.Keys && forall id :: id in rest ==> rest[id] == s[id]
        invariant |ids| == |models| && forall i :: 0 <= i < |ids| ==> ids[i] in s && models[i] == AsDomain(s[ids[i]])
        invariant forall i :: 0 <= i < |ids| ==> ids[i] !in rest
        invariant forall i, j :: 0 <= i < j < |ids| ==> ids[i] != ids[j]
        invariant forall id :: id in s ==> id in rest || id in ids
        decreases |rest.Keys|
      {
        var id :| id in rest.Keys;
        models := models + [AsDomain(rest[id])];
        ids := ids + [id];
        rest := rest - {id};
      }
      assert ListsBy(models, s, ids);
    }
  }

  /** A listing of a store: its entities, once each, under the given ids. */
  ghost predicate ListsBy(models: seq<TeamModel>, s: Store, ids: seq<string>) {
    && |ids| == |models|
    && (forall i :: 0 <= i < |ids| ==> ids[i] in s && models[i] == AsDomain(s[ids[i]]))
    && (forall i, j :: 0 <= i < j < |ids| ==> ids[i] != ids[j])
    && (forall id :: id in s ==> id in ids)
  }

  ghost predicate Lists(models: seq<TeamModel>, s: Store) {
    exists ids :: ListsBy(models, s, ids)
  }

  lemma {:induction false} StoreIsKeyed(s: Store, batches: seq<seq<TeamModel>>)
    requires Keyed(s)
    ensures Keyed(SavedAll(s, batches))
  {
    SavedAllIsSaved(s, batches);
    LastWriterWins(s, Flatten(batches), "");
  }
}
