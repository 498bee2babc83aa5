/** Which lifecycle observation belongs to which EC2 runner of a scale set. */
module RunnerStates {
  import opened Prelude

  const GITHUB_RUNNER_NAME_MAX_LENGTH: nat := 64
  const MAX_SAFE_INTEGER: int := 9007199254740991

  datatype Status = Online | Offline | UnknownStatus

  datatype Lifecycle = Started | Completed | UnknownLifecycle

  datatype RunnerState = RunnerState(
    runnerId: int,
    runnerName: string,
    scaleSetId: int,
    status: Status,
    busy: Option<bool>,
    lifecycle: Lifecycle)

  datatype Phase = Provisioning | Publishing | ConfigPublished | Retiring

  datatype OwnedRunner = OwnedRunner(
    instanceId: string,
    launchTime: Option<int>,
    githubRunnerId: Option<int>,
    runnerName: Option<string>,
    phase: Option<Phase>)

  datatype Index = Index(byName: map<string, RunnerState>, ambiguousNames: set<string>, ambiguousIds: set<int>)

  predicate ValidRunnerState(s: RunnerState) {
    && 0 < s.runnerId <= MAX_SAFE_INTEGER
    && 0 < s.scaleSetId <= MAX_SAFE_INTEGER
    && 0 < |s.runnerName| <= GITHUB_RUNNER_NAME_MAX_LENGTH
  }

  /** A state that can say something about the runners of `scaleSetId`. */
  ghost predicate Relevant(s: RunnerState, scaleSetId: int) {
    && s.scaleSetId == scaleSetId && 1 <= scaleSetId <= 9007199254740991
    && 1 <= s.runnerId <= 9007199254740991 && s.runnerName != "" && |s.runnerName| <= 64
  }

  ghost predicate Named(states: seq<RunnerState>, scaleSetId: int, i: int, name: string) {
    0 <= i < |states| && Relevant(states[i], scaleSetId) && states[i].runnerName == name
  }

  ghost predicate Identified(states: seq<RunnerState>, scaleSetId: int, i: int, id: int) {
    0 <= i < |states| && Relevant(states[i], scaleSetId) && states[i].runnerId == id
  }

  ghost predicate HasName(states: seq<RunnerState>, scaleSetId: int, name: string) {
    exists i :: Named(states, scaleSetId, i, name)
  }

  ghost predicate HasId(states: seq<RunnerState>, scaleSetId: int, id: int) {
    exists i :: Identified(states, scaleSetId, i, id)
  }

  /** Two different names claim the runner id. */
  ghost predicate IdIsShared(states: seq<RunnerState>, scaleSetId: int, id: int) {
    exists i, j :: Identified(states, scaleSetId, i, id) && Identified(states, scaleSetId, j, id)
                   && states[i].runnerName != states[j].runnerName
  }

  /** The name occurs twice, or one of its ids is shared. */
  ghost predicate NameIsShared(states: seq<RunnerState>, scaleSetId: int, name: string) {
    || (exists i, j :: i < j && Named(states, scaleSetId, i, name) && Named(states, scaleSetId, j, name))
    || (exists i :: Named(states, scaleSetId, i, name) && IdIsShared(states, scaleSetId, states[i].runnerId))
  }

  ghost predicate IndexesNames(states: seq<RunnerState>, scaleSetId: int, byName: map<string, RunnerState>) {
    forall name ::
      && (name in byName <==> HasName(states, scaleSetId, name))
      && (name in byName ==> exists i :: Named(states, scaleSetId, i, name) && states[i] == byName[name])
  }

  ghost predicate IndexesIds(states: seq<RunnerState>, scaleSetId: int, byId: map<int, string>) {
    forall id ::
      && (id in byId <==> HasId(states, scaleSetId, id))
      && (id in byId ==> exists i :: Identified(states, scaleSetId, i, id) && states[i].runnerName == byId[id])
  }

  ghost predicate IsIndex(states: seq<RunnerState>, scaleSetId: int, index: Index) {
    && IndexesNames(states, scaleSetId, index.byName)
    && (forall name :: name in index.ambiguousNames <==> NameIsShared(states, scaleSetId, name))
    && (forall id :: id in index.ambiguousIds <==> IdIsShared(states, scaleSetId, id))
  }

  lemma NamesStep(states: seq<RunnerState>, scaleSetId: int, s: RunnerState, byName: map<string, RunnerState>)
    requires IndexesNames(states, scaleSetId, byName)
    ensures IndexesNames(states + [s], scaleSetId, if Relevant(s, scaleSetId) then byName[s.runnerName := s] else byName)
  {
    var more := states + [s];
    forall name, i ensures Named(more, scaleSetId, i, name)
                           <==> Named(states, scaleSetId, i, name)
                                || (i == |states| && Relevant(s, scaleSetId) && s.runnerName == name) {}
    assert Relevant(s, scaleSetId) ==> Named(more, scaleSetId, |states|, s.runnerName);
    forall name ensures
      HasName(more, scaleSetId, name)
      <==> HasName(states, scaleSetId, name) || (Relevant(s, scaleSetId) && s.runnerName == name) {
      if i :| Named(states, scaleSetId, i, name) {
        assert Named(more, scaleSetId, i, name);
      }
    }
    forall name | name in byName && name != s.runnerName
      ensures exists i :: Named(more, scaleSetId, i, name) && more[i] == byName[name] {
      var i :| Named(states, scaleSetId, i, name) && states[i] == byName[name];
      assert Named(more, scaleSetId, i, name);
    }
    if !Relevant(s, scaleSetId) && s.runnerName in byName {
      var i :| Named(states, scaleSetId, i, s.runnerName) && states[i] == byName[s.runnerName];
      assert Named(more, scaleSetId, i, s.runnerName);
    }
  }

  lemma IdsStep(states: seq<RunnerState>, scaleSetId: int, s: RunnerState, byId: map<int, string>)
    requires IndexesIds(states, scaleSetId, byId)
    ensures IndexesIds(states + [s], scaleSetId,
                       if Relevant(s, scaleSetId) then byId[s.runnerId := s.runnerName] else byId)
  {
    var more := states + [s];
    forall id, i ensures Identified(more, scaleSetId, i, id)
                         <==> Identified(states, scaleSetId, i, id)
                              || (i == |states| && Relevant(s, scaleSetId) && s.runnerId == id) {}
    assert Relevant(s, scaleSetId) ==> Identified(more, scaleSetId, |states|, s.runnerId);
    forall id ensures
      HasId(more, scaleSetId, id)
      <==> HasId(states, scaleSetId, id) || (Relevant(s, scaleSetId) && s.runnerId == id) {
      if i :| Identified(states, scaleSetId, i, id) {
        assert Identified(more, scaleSetId, i, id);
      }
    }
    forall id | id in byId && (id != s.runnerId || !Relevant(s, scaleSetId))
      ensures exists i :: Identified(more, scaleSetId, i, id) && more[i].runnerName == byId[id] {
      var i :| Identified(states, scaleSetId, i, id) && states[i].runnerName == byId[id];
      assert Identified(more, scaleSetId, i, id);
    }
  }

  /** An irrelevant state changes nothing; a relevant one shares its id with every other name that has it. */
  lemma SharedIdStep(states: seq<RunnerState>, scaleSetId: int, s: RunnerState, id: int)
    ensures IdIsShared(states + [s], scaleSetId, id)
            <==> || IdIsShared(states, scaleSetId, id)
                 || (&& Relevant(s, scaleSetId) && s.runnerId == id
                     && exists i :: Identified(states, scaleSetId, i, id) && states[i].runnerName != s.runnerName)
  {
    var more := states + [s];
    forall i ensures Identified(more, scaleSetId, i, id)
                     <==> Identified(states, scaleSetId, i, id)
                          || (i == |states| && Relevant(s, scaleSetId) && s.runnerId == id) {}
    if IdIsShared(states, scaleSetId, id) {
      var i, j :| Identified(states, scaleSetId, i, id) && Identified(states, scaleSetId, j, id)
                  && states[i].runnerName != states[j].runnerName;
      assert Identified(more, scaleSetId, i, id) && Identified(more, scaleSetId, j, id);
    }
    if Relevant(s, scaleSetId) && s.runnerId == id {
      if i :| Identified(states, scaleSetId, i, id) && states[i].runnerName != s.runnerName {
        assert Identified(more, scaleSetId, i, id) && Identified(more, scaleSetId, |states|, id);
      }
    }
    if IdIsShared(more, scaleSetId, id) {
      var i, j :| Identified(more, scaleSetId, i, id) && Identified(more, scaleSetId, j, id)
                  && more[i].runnerName != more[j].runnerName;
      if i < |states| && j < |states| {
        assert Identified(states, scaleSetId, i, id) && Identified(states, scaleSetId, j, id);
      } else if i < |states| {
        assert Identified(states, scaleSetId, i, id);
      } else {
        assert Identified(states, scaleSetId, j, id);
      }
    }
  }

  /** A new name makes shared: itself, if it was there or its id is another name's; and every name of its id. */
  lemma SharedNameStep(states: seq<RunnerState>, scaleSetId: int, s: RunnerState, name: string)
    ensures NameIsShared(states + [s], scaleSetId, name)
            <==> || NameIsShared(states, scaleSetId, name)
                 || (Relevant(s, scaleSetId) && s.runnerName == name && HasName(states, scaleSetId, name))
                 || (&& Relevant(s, scaleSetId) && IdIsShared(states + [s], scaleSetId, s.runnerId)
                     && (s.runnerName == name
                         || exists i :: Named(states, scaleSetId, i, name) && states[i].runnerId == s.runnerId))
  {
    var more := states + [s];
    forall i ensures Named(more, scaleSetId, i, name)
                     <==> Named(states, scaleSetId, i, name)
                          || (i == |states| && Relevant(s, scaleSetId) && s.runnerName == name) {}
    forall id ensures IdIsShared(states, scaleSetId, id) ==> IdIsShared(more, scaleSetId, id) {
      SharedIdStep(states, scaleSetId, s, id);
    }
    forall id | id != s.runnerId || !Relevant(s, scaleSetId)
      ensures IdIsShared(states, scaleSetId, id) == IdIsShared(more, scaleSetId, id) {
      SharedIdStep(states, scaleSetId, s, id);
    }
    SharedNameForward(states, scaleSetId, s, name);
    if NameIsShared(more, scaleSetId, name) {
      if i, j :| i < j && Named(more, scaleSetId, i, name) && Named(more, scaleSetId, j, name) {
        assert Named(states, scaleSetId, i, name);
        assert j < |states| ==> Named(states, scaleSetId, j, name);
      } else {
        var i :| Named(more, scaleSetId, i, name) && IdIsShared(more, scaleSetId, more[i].runnerId);
        assert i < |states| ==> Named(states, scaleSetId, i, name);
      }
    }
  }

  lemma SharedNameForward(states: seq<RunnerState>, scaleSetId: int, s: RunnerState, name: string)
    ensures NameIsShared(states, scaleSetId, name) ==> NameIsShared(states + [s], scaleSetId, name)
    ensures Relevant(s, scaleSetId) && s.runnerName == name && HasName(states, scaleSetId, name)
            ==> NameIsShared(states + [s], scaleSetId, name)
    ensures && Relevant(s, scaleSetId) && IdIsShared(states + [s], scaleSetId, s.runnerId)
            && (s.runnerName == name
                || exists i :: Named(states, scaleSetId, i, name) && states[i].runnerId == s.runnerId)
            ==> NameIsShared(states + [s], scaleSetId, name)
  {
    var more := states + [s];
    assert Relevant(s, scaleSetId) && s.runnerName == name ==> Named(more, scaleSetId, |states|, name);
    assert forall i :: Named(states, scaleSetId, i, name) ==> Named(more, scaleSetId, i, name) && more[i] == states[i];
    forall id ensures IdIsShared(states, scaleSetId, id) ==> IdIsShared(more, scaleSetId, id) {
      SharedIdStep(states, scaleSetId, s, id);
    }
  }

  /** What the loop records for one relevant state. */
  ghost function Noted(index: Index, byId: map<int, string>, s: RunnerState): Index {
    var repeated := if s.runnerName in index.byName then {s.runnerName} else {};
    var contested := s.runnerId in byId && byId[s.runnerId] != s.runnerName;
    Index(
      index.byName[s.runnerName := s],
      index.ambiguousNames + repeated + (if contested then {byId[s.runnerId], s.runnerName} else {}),
      index.ambiguousIds + (if contested then {s.runnerId} else {}))
  }

  lemma NotedIds(states: seq<RunnerState>, scaleSetId: int, s: RunnerState, index: Index, byId: map<int, string>)
    requires IsIndex(states, scaleSetId, index) && IndexesIds(states, scaleSetId, byId) && Relevant(s, scaleSetId)
    ensures forall id :: id in Noted(index, byId, s).ambiguousIds <==> IdIsShared(states + [s], scaleSetId, id)
  {
    forall id ensures id in Noted(index, byId, s).ambiguousIds <==> IdIsShared(states + [s], scaleSetId, id) {
      SharedIdStep(states, scaleSetId, s, id);
    }
  }

  lemma NotedNames(states: seq<RunnerState>, scaleSetId: int, s: RunnerState, index: Index, byId: map<int, string>, name: string)
    requires IsIndex(states, scaleSetId, index) && IndexesIds(states, scaleSetId, byId) && Relevant(s, scaleSetId)
    ensures name in Noted(index, byId, s).ambiguousNames <==> NameIsShared(states + [s], scaleSetId, name)
  {
    SharedNameStep(states, scaleSetId, s, name);
    SharedIdStep(states, scaleSetId, s, s.runnerId);
    var contested := s.runnerId in byId && byId[s.runnerId] != s.runnerName;
    if contested {
      var i :| Identified(states, scaleSetId, i, s.runnerId) && states[i].runnerName == byId[s.runnerId];
      assert Named(states, scaleSetId, i, byId[s.runnerId]);
    }
    if i :| Named(states, scaleSetId, i, name) && states[i].runnerId == s.runnerId {
      assert Identified(states, scaleSetId, i, s.runnerId);
    }
    if !contested && s.runnerId in byId {
      assert HasName(states, scaleSetId, s.runnerName) by {
        var i :| Identified(states, scaleSetId, i, s.runnerId) && states[i].runnerName == byId[s.runnerId];
        assert Named(states, scaleSetId, i, s.runnerName);
      }
    }
  }

  lemma NotedIsIndex(states: seq<RunnerState>, scaleSetId: int, s: RunnerState, index: Index, byId: map<int, string>)
    requires IsIndex(states, scaleSetId, index) && IndexesIds(states, scaleSetId, byId) && Relevant(s, scaleSetId)
    ensures IsIndex(states + [s], scaleSetId, Noted(index, byId, s))
  {
    NamesStep(states, scaleSetId, s, index.byName);
    NotedIds(states, scaleSetId, s, index, byId);
    forall name ensures name in Noted(index, byId, s).ambiguousNames <==> NameIsShared(states + [s], scaleSetId, name) {
      NotedNames(states, scaleSetId, s, index, byId, name);
    }
  }

  lemma IrrelevantKeepsIndex(states: seq<RunnerState>, scaleSetId: int, s: RunnerState, index: Index)
    requires IsIndex(states, scaleSetId, index) && !Relevant(s, scaleSetId)
    ensures IsIndex(states + [s], scaleSetId, index)
  {
    NamesStep(states, scaleSetId, s, index.byName);
    forall id ensures IdIsShared(states, scaleSetId, id) == IdIsShared(states + [s], scaleSetId, id) {
      SharedIdStep(states, scaleSetId, s, id);
    }
    forall name ensures NameIsShared(states, scaleSetId, name) == NameIsShared(states + [s], scaleSetId, name) {
      SharedNameStep(states, scaleSetId, s, name);
    }
  }

  ghost predicate Indexes(states: seq<RunnerState>, k: nat, scaleSetId: int, index: Index, byId: map<int, string>)
    requires k <= |states|
  {
    IsIndex(states[..k], scaleSetId, index) && IndexesIds(states[..k], scaleSetId, byId)
  }

  lemma IndexStep(states: seq<RunnerState>, k: nat, scaleSetId: int, index: Index, byId: map<int, string>)
    requires k < |states| && Indexes(states, k, scaleSetId, index, byId)
    ensures var s := states[k];
            if Relevant(s, scaleSetId)
            then Indexes(states, k + 1, scaleSetId, Noted(index, byId, s), byId[s.runnerId := s.runnerName])
            else Indexes(states, k + 1, scaleSetId, index, byId)
  {
    var s := states[k];
    assert states[..k + 1] == states[..k] + [s];
    IdsStep(states[..k], scaleSetId, s, byId);
    if Relevant(s, scaleSetId) {
      NotedIsIndex(states[..k], scaleSetId, s, index, byId);
    } else {
      IrrelevantKeepsIndex(states[..k], scaleSetId, s, index);
    }
  }

  method MarkAmbiguous(index: Index, byId: map<int, string>, s: RunnerState)
    returns (ambiguousNames: set<string>, ambiguousIds: set<int>)
    ensures Index(index.byName[s.runnerName := s], ambiguousNames, ambiguousIds) == Noted(index, byId, s)
  {
    ambiguousNames, ambiguousIds := index.ambiguousNames, index.ambiguousIds;
    if s.runnerName in index.byName {
      ambiguousNames := ambiguousNames + {s.runnerName};
    }
    if s.runnerId in byId && byId[s.runnerId] != s.runnerName {
      ambiguousIds := ambiguousIds + {s.runnerId};
      ambiguousNames := ambiguousNames + {byId[s.runnerId]};
      ambiguousNames := ambiguousNames + {s.runnerName};
    }
  }

  method IndexRunnerStates(runnerStates: seq<RunnerState>, scaleSetId: int) returns (index: Index)
    ensures IsIndex(runnerStates, scaleSetId, index)
  {
    index := Index(map[], {}, {});
    var byId: map<int, string> := map[];
    var k := 0;
    while k < |runnerStates|
      invariant k <= |runnerStates|
      invariant Indexes(runnerStates, k, scaleSetId, index, byId)
    {
      var s := runnerStates[k];
      IndexStep(runnerStates, k, scaleSetId, index, byId);
      k := k + 1;
      if !ValidRunnerState(s) || s.scaleSetId != scaleSetId {
        continue;
      }
      var ambiguousNames, ambiguousIds := MarkAmbiguous(index, byId, s);
      index := Index(index.byName[s.runnerName := s], ambiguousNames, ambiguousIds);
      byId := byId[s.runnerId := s.runnerName];
    }
    assert runnerStates[..k] == runnerStates;
  }

  function MatchingRunnerState(runner: OwnedRunner, index: Index, scaleSetId: int): Option<RunnerState> {
    if runner.runnerName.GetOr("") == "" || runner.githubRunnerId.GetOr(0) == 0 then None
    else
      var name, id := runner.runnerName.value, runner.githubRunnerId.value;
      if name in index.ambiguousNames || id in index.ambiguousIds then None
      else if name !in index.byName then None
      else
        var s := index.byName[name];
        if s.runnerId != id || s.runnerName != name || s.scaleSetId != scaleSetId then None else Some(s)
  }

  /**
   The observation at position `i` is the runner's and nobody else's: it carries the runner's name
   and id, and no other valid observation of the scale set carries either.
   */
  ghost predicate OnlyObservation(states: seq<RunnerState>, scaleSetId: int, runner: OwnedRunner, i: int) {
    && 0 <= i < |states|
    && Relevant(states[i], scaleSetId)
    && runner.runnerName == Some(states[i].runnerName)
    && runner.githubRunnerId == Some(states[i].runnerId)
    && forall j :: 0 <= j < |states| && j != i && Relevant(states[j], scaleSetId)
                   ==> states[j].runnerName != states[i].runnerName && states[j].runnerId != states[i].runnerId
  }

  ghost predicate Observed(states: seq<RunnerState>, scaleSetId: int, runner: OwnedRunner, s: RunnerState) {
    exists i :: OnlyObservation(states, scaleSetId, runner, i) && states[i] == s
  }

  /** A state is matched exactly when it is the runner's only observation. */
  lemma MatchIsUnambiguous(states: seq<RunnerState>, scaleSetId: int, index: Index, runner: OwnedRunner, s: RunnerState)
    requires IsIndex(states, scaleSetId, index)
    ensures MatchingRunnerState(runner, index, scaleSetId) == Some(s) <==> Observed(states, scaleSetId, runner, s)
  {
    if MatchingRunnerState(runner, index, scaleSetId) == Some(s) {
      MatchIsObserved(states, scaleSetId, index, runner, s);
    }
    if i :| OnlyObservation(states, scaleSetId, runner, i) && states[i] == s {
      ObservedIsMatched(states, scaleSetId, index, runner, i);
    }
  }

  lemma MatchIsObserved(states: seq<RunnerState>, scaleSetId: int, index: Index, runner: OwnedRunner, s: RunnerState)
    requires IsIndex(states, scaleSetId, index)
    requires MatchingRunnerState(runner, index, scaleSetId) == Some(s)
    ensures Observed(states, scaleSetId, runner, s)
  {
    var name, id := runner.runnerName.value, runner.githubRunnerId.value;
    var i :| Named(states, scaleSetId, i, name) && states[i] == s;
    forall j | 0 <= j < |states| && j != i && Relevant(states[j], scaleSetId)
      ensures states[j].runnerName != name && states[j].runnerId != id {
      if states[j].runnerName == name {
        assert Named(states, scaleSetId, j, name);
        assert NameIsShared(states, scaleSetId, name);
      } else if states[j].runnerId == id {
        assert Identified(states, scaleSetId, i, id) && Identified(states, scaleSetId, j, id);
      }
    }
    assert OnlyObservation(states, scaleSetId, runner, i);
  }

  lemma ObservedIsMatched(states: seq<RunnerState>, scaleSetId: int, index: Index, runner: OwnedRunner, i: int)
    requires IsIndex(states, scaleSetId, index) && OnlyObservation(states, scaleSetId, runner, i)
    ensures MatchingRunnerState(runner, index, scaleSetId) == Some(states[i])
  {
    var name, id := runner.runnerName.value, runner.githubRunnerId.value;
    assert Named(states, scaleSetId, i, name);
    assert forall j :: Named(states, scaleSetId, j, name) ==> j == i;
    assert forall j :: Identified(states, scaleSetId, j, id) ==> j == i;
    assert !IdIsShared(states, scaleSetId, id);
    assert !NameIsShared(states, scaleSetId, name);
  }
}
