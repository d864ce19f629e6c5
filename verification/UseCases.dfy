/** getTeams: the cached teams first, then every network response, each of them saved on the way. */
module UseCases {
  import opened Teams

  /** TeamNetworkModel; logo is its main png address. */
  datatype TeamNetworkModel = TeamNetworkModel(name: string, abbreviatedName: string, logo: string, location: string)

  function ToDomain(n: TeamNetworkModel): TeamModel {
    TeamModel(n.logo, n.name, n.abbreviatedName, n.location)
  }

  function AllToDomain(ns: seq<TeamNetworkModel>): (r: seq<TeamModel>)
    ensures |r| == |ns| && forall i :: 0 <= i < |ns| ==> r[i] == ToDomain(ns[i])
  {
    seq(|ns|, i requires 0 <= i < |ns| => ToDomain(ns[i]))
  }

  /**
   * What happens while a subscription runs: the service delivers a list, with the use case alive or gone by then, or
   * the main queue runs its next block.
   */
  datatype Signal = Response(teams: seq<TeamNetworkModel>, alive: bool) | MainQueueRuns

  datatype Completion = Finished | Failed

  datatype Event = Teams(models: seq<TeamModel>) | Finish | DomainUnkown

  /** A response reaches the subscriber mapped. */
  function EventsOf(signal: Signal): seq<Event> {
    match signal
    case Response(teams, _) => [Teams(AllToDomain(teams))]
    case MainQueueRuns => []
  }

  /** A response that finds the use case alive is saved. */
  function SavesOf(signal: Signal): seq<seq<TeamModel>> {
    match signal
    case Response(teams, alive) => if alive then [AllToDomain(teams)] else []
    case MainQueueRuns => []
  }

  function Delivered(signals: seq<Signal>): seq<Event> {
    if signals == [] then [] else Delivered(signals[..|signals| - 1]) + EventsOf(signals[|signals| - 1])
  }

  function AllSaves(signals: seq<Signal>): seq<seq<TeamModel>> {
    if signals == [] then [] else AllSaves(signals[..|signals| - 1]) + SavesOf(signals[|signals| - 1])
  }

  function EndEvent(c: Completion): Event {
    if c == Finished then Finish else DomainUnkown
  }

  /** The cached teams come first, unless there are none. */
  function Prepended(localModels: seq<TeamModel>, events: seq<Event>): seq<Event> {
    if localModels == [] then events else [Teams(localModels)] + events
  }

  // ---------- The same in terms of the single fields and positions ----------

  predicate IsMapped(m: TeamModel, n: TeamNetworkModel) {
    m.name == n.name && m.abbreviatedName == n.abbreviatedName && m.logoAddress == n.logo && m.location == n.location
  }

  predicate AllMapped(ms: seq<TeamModel>, ns: seq<TeamNetworkModel>) {
    |ms| == |ns| && forall i :: 0 <= i < |ns| ==> IsMapped(ms[i], ns[i])
  }

  predicate Counts(signal: Signal, onlyAlive: bool) {
    signal.Response? && (onlyAlive ==> signal.alive)
  }

  function Positions(signals: seq<Signal>, onlyAlive: bool): set<int> {
    set i | 0 <= i < |signals| && Counts(signals[i], onlyAlive)
  }

  /** How many responses there are, or how many of them find the use case alive. */
  function Among(signals: seq<Signal>, onlyAlive: bool): nat {
    |Positions(signals, onlyAlive)|
  }

  lemma AmongMore(signals: seq<Signal>, onlyAlive: bool)
    requires signals != []
    ensures var last := |signals| - 1;
            Among(signals, onlyAlive)
            == Among(signals[..last], onlyAlive) + if Counts(signals[last], onlyAlive) then 1 else 0
  {
    var last, front := |signals| - 1, signals[..|signals| - 1];
    forall i ensures i in Positions(front, onlyAlive) <==> i in Positions(signals, onlyAlive) && i != last {
      assert 0 <= i < last ==> front[i] == signals[i];
    }
    if Counts(signals[last], onlyAlive) {
      assert Positions(signals, onlyAlive) == Positions(front, onlyAlive) + {last};
    } else {
      assert Positions(signals, onlyAlive) == Positions(front, onlyAlive);
    }
  }

  /** Every response is delivered in its place, mapped field by field, and nothing else is. */
  ghost predicate DeliversEach(signals: seq<Signal>, events: seq<Event>) {
    && |events| == Among(signals, false)
    && forall j :: 0 <= j < |signals| && signals[j].Response? ==>
         var place := Among(signals[..j], false);
         place < |events| && events[place].Teams? && AllMapped(events[place].models, signals[j].teams)
  }

  /** Every response that finds the use case alive is saved in its turn, mapped field by field, and nothing else is. */
  ghost predicate SavesEach(signals: seq<Signal>, saves: seq<seq<TeamModel>>) {
    && |saves| == Among(signals, true)
    && forall j :: 0 <= j < |signals| && signals[j].Response? && signals[j].alive ==>
         var place := Among(signals[..j], true);
         place < |saves| && AllMapped(saves[place], signals[j].teams)
  }

  lemma DeliversMore(signals: seq<Signal>, events: seq<Event>)
    requires signals != [] && DeliversEach(signals[..|signals| - 1], events)
    ensures DeliversEach(signals, events + EventsOf(signals[|signals| - 1]))
  {
    var last, front := |signals| - 1, signals[..|signals| - 1];
    AmongMore(signals, false);
    forall j | 0 <= j < last ensures front[j] == signals[j] && front[..j] == signals[..j] {}
  }

  lemma {:induction false} DeliveredEach(signals: seq<Signal>)
    ensures DeliversEach(signals, Delivered(signals))
  {
    if signals == [] {
    } else {
      DeliveredEach(signals[..|signals| - 1]);
      DeliversMore(signals, Delivered(signals[..|signals| - 1]));
    }
  }

  lemma SavesMore(signals: seq<Signal>, saves: seq<seq<TeamModel>>)
    requires signals != [] && SavesEach(signals[..|signals| - 1], saves)
    ensures SavesEach(signals, saves + SavesOf(signals[|signals| - 1]))
  {
    var last, front := |signals| - 1, signals[..|signals| - 1];
    AmongMore(signals, true);
    forall j | 0 <= j < last ensures front[j] == signals[j] && front[..j] == signals[..j] {}
  }

  lemma {:induction false} SavedEach(signals: seq<Signal>)
    ensures SavesEach(signals, AllSaves(signals))
  {
    if signals == [] {
    } else {
      SavedEach(signals[..|signals| - 1]);
      SavesMore(signals, AllSaves(signals[..|signals| - 1]));
    }
  }

  /**
   * What a completed subscription receives: the cache first if there was one, then every response in its place, and
   * last the end, or domainUnkown for a failure.
   */
  ghost predicate Receives(cache: seq<TeamModel>, signals: seq<Signal>, completion: Completion, received: seq<Event>) {
    && (cache != [] ==> received != [] && received[0] == Teams(cache))
    && ReceivesLive(signals, completion, if cache == [] then received else received[1..])
  }

  ghost predicate ReceivesLive(signals: seq<Signal>, completion: Completion, events: seq<Event>) {
    && events != []
    && DeliversEach(signals, events[..|events| - 1])
    && events[|events| - 1] == match completion case Finished => Finish case Failed => DomainUnkown
  }

  lemma PrependedReceives(cache: seq<TeamModel>, signals: seq<Signal>, completion: Completion)
    ensures Receives(cache, signals, completion, Prepended(cache, Delivered(signals) + [EndEvent(completion)]))
  {
    var delivered, live := Delivered(signals), Delivered(signals) + [EndEvent(completion)];
    DeliveredEach(signals);
    assert live[..|live| - 1] == delivered;
    assert ([Teams(cache)] + live)[1..] == live;
  }

  /** The publisher getTeams returns: the mapped and saving network stream, with the teams to deliver ahead of it. */
  datatype Publisher = Publisher(prepended: seq<TeamModel>)

  class TeamsUseCasesImp {
    const repository: TeamsRealmRepository

    constructor (repository: TeamsRealmRepository)
      ensures this.repository == repository
    {
      this.repository := repository;
    }

    /** The call: it reads the cache, once and for every subscription, and changes nothing. */
    method GetTeams() returns (publisher: Publisher)
      requires repository.Valid()
      ensures Lists(publisher.prepended, repository.realm.data)
      ensures publisher.prepended == [] <==> repository.realm.data == map[]
    {
      publisher := Publisher([]);
      var localModels := repository.Get();
      ListsEmpty(localModels, repository.realm.data);
      if |localModels| > 0 {
        publisher := Publisher(localModels);
      }
    }

    /**
     * A subscription that completes, whenever and however often it is made. The subscriber gets the cache as it was
     * at the call, if there was anything in it, then each response mapped in order, then the end; every response
     * that found the use case alive has been saved, in order.
     */
    method Subscribe(publisher: Publisher, signals: seq<Signal>, completion: Completion) returns (received: seq<Event>)
      requires repository.Valid()
      modifies repository`queue, repository`issued, repository`executed, repository.realm
      ensures repository.Valid()
      ensures received == Prepended(publisher.prepended, Delivered(signals) + [EndEvent(completion)])
      ensures Receives(publisher.prepended, signals, completion, received)
      ensures repository.issued == old(repository.issued) + AllSaves(signals)
      ensures SavesEach(signals, repository.issued[|old(repository.issued)|..])
      ensures old(repository.executed) <= repository.executed
      ensures repository.initial == old(repository.initial)
    {
      received := Receive(signals);
      received := received + [EndEvent(completion)];
      if |publisher.prepended| > 0 {
        received := [Teams(publisher.prepended)] + received;
      }
      PrependedReceives(publisher.prepended, signals, completion);
      SavedEach(signals);
    }

    /** What the service's publisher delivers through map, while the main queue runs now and then. */
    method Receive(signals: seq<Signal>) returns (delivered: seq<Event>)
      requires repository.Valid()
      modifies repository`queue, repository`issued, repository`executed, repository.realm
      ensures repository.Valid()
      ensures delivered == Delivered(signals)
      ensures repository.issued == old(repository.issued) + AllSaves(signals)
      ensures old(repository.executed) <= repository.executed
      ensures repository.initial == old(repository.initial)
    {
      delivered := [];
      ghost var before, saves := repository.issued, [];
      for i := 0 to |signals|
        invariant repository.Valid()
        invariant delivered == Delivered(signals[..i])
        invariant saves == AllSaves(signals[..i]) && repository.issued == before + saves
        invariant old(repository.executed) <= repository.executed
        invariant repository.initial == old(repository.initial)
      {
        assert signals[..i + 1][..i] == signals[..i];
        var events := Handle(signals[i]);
        delivered := delivered + events;
        assert (before + saves) + SavesOf(signals[i]) == before + (saves + SavesOf(signals[i]));
        saves := saves + SavesOf(signals[i]);
      }
      assert signals[..|signals|] == signals;
    }

    /** The map closure on one response, or one turn of the main queue. */
    method Handle(signal: Signal) returns (events: seq<Event>)
      requires repository.Valid()
      modifies repository`queue, repository`issued, repository`executed, repository.realm
      ensures repository.Valid()
      ensures events == EventsOf(signal) && repository.issued == old(repository.issued) + SavesOf(signal)
      ensures old(repository.executed) <= repository.executed
    {
      match signal {
        case Response(teams, alive) =>
          var models := AllToDomain(teams);
          if alive { repository.Save(models); }
          events := [Teams(models)];
        case MainQueueRuns =>
          repository.RunNext();
          events := [];
      }
    }
  }

  lemma ListsEmpty(models: seq<TeamModel>, s: Store)
    requires Lists(models, s)
    ensures models == [] <==> s == map[]
  {
    var ids :| ListsBy(models, s, ids);
    if models == [] {
      assert forall id :: id !in s;
    } else {
      assert ids[0] in s;
    }
  }

  /**
   * Call, subscribe, let the main queue drain, and read: every team of the last response is in the cache exactly as
   * received, and no other cached team has its id.
   */
  method RefreshAndRead(useCase: TeamsUseCasesImp, signals: seq<Signal>, completion: Completion,
                        last: seq<TeamNetworkModel>)
      returns (cache: seq<TeamModel>)
    requires useCase.repository.Valid()
    requires DistinctIds(AllToDomain(last))
    modifies useCase.repository`queue, useCase.repository`issued, useCase.repository`executed, useCase.repository.realm
    ensures forall i :: 0 <= i < |last| ==> ToDomain(last[i]) in cache
    ensures forall i, m :: 0 <= i < |last| && m in cache && IdOf(m) == IdOf(ToDomain(last[i])) ==>
      m == ToDomain(last[i])
    ensures forall i, j :: 0 <= i < j < |cache| ==> IdOf(cache[i]) != IdOf(cache[j])
  {
    var repository := useCase.repository;
    var all := signals + [Response(last, true)];
    assert all[..|all| - 1] == signals;
    var publisher := useCase.GetTeams();
    var _ := useCase.Subscribe(publisher, all, completion);
    repository.RunAll();
    cache := repository.Get();
    CacheHoldsLastResponse(repository.initial, repository.issued, cache);
  }

  lemma CacheHoldsLastResponse(initial: Store, issued: seq<seq<TeamModel>>, cache: seq<TeamModel>)
    requires issued != [] && DistinctIds(issued[|issued| - 1]) && Keyed(initial)
    requires Lists(cache, SavedAll(initial, issued))
    ensures var last := issued[|issued| - 1];
            && (forall i :: 0 <= i < |last| ==> last[i] in cache)
            && (forall i, m :: 0 <= i < |last| && m in cache && IdOf(m) == IdOf(last[i]) ==> m == last[i])
    ensures forall i, j :: 0 <= i < j < |cache| ==> IdOf(cache[i]) != IdOf(cache[j])
  {
    var last := issued[|issued| - 1];
    var before := SavedAll(initial, issued[..|issued| - 1]);
    var s := SavedAll(initial, issued);
    SavedAllIsSaved(initial, issued);
    StoreIsKeyed(initial, issued);
    var ids :| ListsBy(cache, s, ids);
    forall i | 0 <= i < |last|
      ensures last[i] in cache && forall m :: m in cache && IdOf(m) == IdOf(last[i]) ==> m == last[i]
    {
      DistinctIdsAreLast(last, i);
      LastWriterWins(before, last, IdOf(last[i]));
      ListedUnderItsId(cache, s, last[i]);
    }
  }

  /** A listing of a store with every entity under its own id shows a stored team, and no other one with its id. */
  lemma ListedUnderItsId(cache: seq<TeamModel>, s: Store, m: TeamModel)
    requires Keyed(s) && Lists(cache, s) && IdOf(m) in s && s[IdOf(m)] == Entity(m)
    ensures m in cache && forall n :: n in cache && IdOf(n) == IdOf(m) ==> n == m
  {
    var ids :| ListsBy(cache, s, ids);
    assert IdOf(m) in ids;
    var k :| 0 <= k < |ids| && ids[k] == IdOf(m);
    assert cache[k] == m;
  }
}
