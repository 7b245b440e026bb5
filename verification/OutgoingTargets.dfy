/**
 The index of discovered share targets (outgoing_targets_manager.cc): endpoint id to target
 id, target id to session, and the cache of lost targets that wait to be found again.
 */
module OutgoingTargets {
  import opened Wrappers

  datatype ShareTarget = ShareTarget(id: int, deviceId: string, receiveDisabled: bool)

  datatype Session = Session(
    endpoint: string, target: ShareTarget, certificate: Option<int>, connected: bool, connecting: bool)
  {
    predicate IsActive() {
      connected || connecting
    }
  }

  // A cache entry owns its expiry timer: the timer is cancelled when the entry goes.
  datatype CacheEntry = CacheEntry(target: ShareTarget, timer: nat)

  // What observers are told.
  datatype Notice =
    | Discovered(target: ShareTarget)
    | Updated(target: ShareTarget)
    | Gone(target: ShareTarget)

  // Where a target id stands for an observer of the log.
  datatype Phase = Unseen | Live | Over | Broken

  function NextPhase(p: Phase, n: Notice): Phase {
    match (p, n)
    case (Unseen, Discovered(_)) => Live
    case (Live, Updated(_)) => Live
    case (Live, Gone(_)) => Over
    case _ => Broken
  }

  function PhaseOf(log: seq<Notice>, id: int): Phase {
    if log == [] then Unseen
    else if Last(log).target.id == id then NextPhase(PhaseOf(Init(log), id), Last(log))
    else PhaseOf(Init(log), id)
  }

  lemma PhaseSnoc(log: seq<Notice>, n: Notice, id: int)
    ensures PhaseOf(log + [n], id)
         == if n.target.id == id then NextPhase(PhaseOf(log, id), n) else PhaseOf(log, id)
  {
    assert Init(log + [n]) == log;
  }

  // The notices about one target, and the shape they must have: discovered, then updates,
  // then at most one loss and nothing after it.
  function About(log: seq<Notice>, id: int): seq<Notice> {
    if log == [] then []
    else About(Init(log), id) + (if Last(log).target.id == id then [Last(log)] else [])
  }

  ghost predicate WellShaped(notices: seq<Notice>) {
    notices != [] ==>
      && notices[0].Discovered?
      && (forall k :: 0 < k < |notices| - 1 ==> notices[k].Updated?)
      && (|notices| > 1 ==> !Last(notices).Discovered?)
  }

  lemma {:induction false} PhasesAreShapes(log: seq<Notice>, id: int)
    ensures PhaseOf(log, id) != Broken <==> WellShaped(About(log, id))
    ensures PhaseOf(log, id) == Unseen <==> About(log, id) == []
    ensures PhaseOf(log, id) == Over <==>
            WellShaped(About(log, id)) && |About(log, id)| > 1 && Last(About(log, id)).Gone?
  {
    if log != [] {
      var before := About(Init(log), id);
      PhasesAreShapes(Init(log), id);
      if Last(log).target.id == id {
        var after := before + [Last(log)];
        assert About(log, id) == after;
        if before != [] {
          assert after[|before| - 1] == Last(before) && after[0] == before[0];
          assert forall k :: 0 < k < |before| - 1 ==> after[k] == before[k];
        }
      } else {
        assert About(log, id) == before;
      }
    }
  }

  // What ties the three maps together ----------------------------------------------

  // The endpoint map and the sessions' own endpoint ids are inverses of each other.
  ghost predicate Inverse(targetIds: map<string, int>, sessions: map<int, Session>) {
    && (forall e :: e in targetIds ==> targetIds[e] in sessions && sessions[targetIds[e]].endpoint == e)
    && (forall i :: i in sessions ==>
          && sessions[i].target.id == i
          && sessions[i].endpoint in targetIds && targetIds[sessions[i].endpoint] == i)
  }

  // Ids in the cache are distinct and disjoint from the ids of sessions.
  ghost predicate CacheApart(sessions: map<int, Session>, cache: map<string, CacheEntry>) {
    && (forall e :: e in cache ==> cache[e].target.id !in sessions && cache[e].target.receiveDisabled)
    && (forall e1, e2 :: e1 in cache && e2 in cache && cache[e1].target.id == cache[e2].target.id ==> e1 == e2)
  }

  // The timers that can still fire are exactly those of the cache entries.
  ghost predicate TimersOwned(cache: map<string, CacheEntry>, timers: map<nat, string>) {
    && (forall e :: e in cache ==> cache[e].timer in timers && timers[cache[e].timer] == e)
    && (forall t :: t in timers ==> timers[t] in cache && cache[timers[t]].timer == t)
  }

  // Every trace is well shaped so far, and every id the manager holds is live.
  ghost predicate Announced(log: seq<Notice>, sessions: map<int, Session>, cache: map<string, CacheEntry>) {
    && (forall i :: PhaseOf(log, i) != Broken)
    && (forall i :: i in sessions ==> PhaseOf(log, i) == Live)
    && (forall e :: e in cache ==> PhaseOf(log, cache[e].target.id) == Live)
  }

  // One more notice that its target's phase allows.
  lemma NoticeKeepsAnnounced(log: seq<Notice>, n: Notice, sessions: map<int, Session>, cache: map<string, CacheEntry>)
    requires Announced(log, sessions, cache)
    requires NextPhase(PhaseOf(log, n.target.id), n) != Broken && !n.Gone?
    ensures Announced(log + [n], sessions, cache) && PhaseOf(log + [n], n.target.id) == Live
  {
    forall i {
      PhaseSnoc(log, n, i);
    }
  }

  // Whether a target that was announced is still to be reported lost.
  ghost predicate Held(sessions: map<int, Session>, cache: map<string, CacheEntry>, id: int) {
    id in sessions || exists e :: e in cache && cache[e].target.id == id
  }

  // Every target that was announced and not reported lost is held.
  ghost predicate Remembered(log: seq<Notice>, sessions: map<int, Session>, cache: map<string, CacheEntry>) {
    forall i :: PhaseOf(log, i) == Live ==> Held(sessions, cache, i)
  }

  // It was announced, but is not to be reported lost any more.
  ghost predicate Forgotten(log: seq<Notice>, sessions: map<int, Session>, cache: map<string, CacheEntry>, id: int) {
    PhaseOf(log, id) == Live && !Held(sessions, cache, id)
  }

  // A discovery forgets no target.
  lemma DiscoveryRemembers(log: seq<Notice>, n: Notice, sessions0: map<int, Session>, cache0: map<string, CacheEntry>,
                           sessions: map<int, Session>, cache: map<string, CacheEntry>)
    requires Remembered(log, sessions0, cache0) && sessions0.Keys <= sessions.Keys && n.target.id in sessions
    requires forall e :: e in cache0 && cache0[e].target.id != n.target.id ==> e in cache && cache[e] == cache0[e]
    ensures Remembered(log + [n], sessions, cache)
  {
    forall i | PhaseOf(log + [n], i) == Live
      ensures Held(sessions, cache, i)
    {
      PhaseSnoc(log, n, i);
    }
  }

  // A loss forgets a target if and only if the cache has an entry for the lost endpoint, which
  // insert_or_assign replaces.
  lemma LossForgetsIff(log: seq<Notice>, targetIds: map<string, int>, sessions: map<int, Session>,
                       cache: map<string, CacheEntry>, endpoint: string, timer: nat)
    requires Inverse(targetIds, sessions) && CacheApart(sessions, cache) && Announced(log, sessions, cache)
    requires Remembered(log, sessions, cache) && endpoint in targetIds
    ensures var disabled := sessions[targetIds[endpoint]].target.(receiveDisabled := true);
            Remembered(log + [Updated(disabled)], sessions - {disabled.id},
                       cache[endpoint := CacheEntry(disabled, timer)])
            <==> endpoint !in cache
  {
    var disabled := sessions[targetIds[endpoint]].target.(receiveDisabled := true);
    var log', sessions' := log + [Updated(disabled)], sessions - {disabled.id};
    var cache' := cache[endpoint := CacheEntry(disabled, timer)];
    if endpoint in cache {
      var i := cache[endpoint].target.id;
      PhaseSnoc(log, Updated(disabled), i);
      var id := targetIds[endpoint];
      assert id in sessions && sessions[id].target.id == id == disabled.id;
      forall e | e in cache'
        ensures cache'[e].target.id != i
      {
        if e != endpoint {
          assert cache'[e] == cache[e];
        }
      }
      assert PhaseOf(log', i) == Live && !Held(sessions', cache', i);
    } else {
      forall i | PhaseOf(log', i) == Live
        ensures Held(sessions', cache', i)
      {
        PhaseSnoc(log, Updated(disabled), i);
        if i == disabled.id {
          assert cache'[endpoint].target.id == i;
        } else if i !in sessions {
          var e :| e in cache && cache[e].target.id == i;
          assert cache'[e] == cache[e];
        }
      }
    }
  }

  // Nor does an expiry, which reports its target lost.
  lemma ExpiryRemembers(log: seq<Notice>, sessions: map<int, Session>, cache: map<string, CacheEntry>, endpoint: string)
    requires Remembered(log, sessions, cache) && CacheApart(sessions, cache) && endpoint in cache
    ensures Remembered(log + [Gone(cache[endpoint].target)], sessions, cache - {endpoint})
  {
    var n := Gone(cache[endpoint].target);
    forall i | PhaseOf(log + [n], i) == Live
      ensures Held(sessions, cache - {endpoint}, i)
    {
      PhaseSnoc(log, n, i);
      if i !in sessions {
        var e :| e in cache && cache[e].target.id == i;
        assert (cache - {endpoint})[e] == cache[e];
      }
    }
  }

  // A new session under a new id and endpoint.
  lemma AddKeepsInverse(targetIds: map<string, int>, sessions: map<int, Session>, s: Session)
    requires Inverse(targetIds, sessions) && s.target.id !in sessions && s.endpoint !in targetIds
    ensures Inverse(targetIds[s.endpoint := s.target.id], sessions[s.target.id := s])
  {
  }

  // A session for a target never announced, or for the target of an entry that leaves the cache.
  lemma NewSessionKeeps(log: seq<Notice>, targetIds: map<string, int>, sessions: map<int, Session>,
                        cache: map<string, CacheEntry>, from: Option<string>, s: Session)
    requires Inverse(targetIds, sessions) && CacheApart(sessions, cache) && Announced(log, sessions, cache)
    requires s.endpoint !in targetIds
    requires if from.Some? then from.value in cache && cache[from.value].target.id == s.target.id
             else PhaseOf(log, s.target.id) == Unseen
    ensures var n, left := if from.Some? then Updated(s.target) else Discovered(s.target),
                           if from.Some? then cache - {from.value} else cache;
            && s.target.id !in sessions
            && Inverse(targetIds[s.endpoint := s.target.id], sessions[s.target.id := s])
            && CacheApart(sessions[s.target.id := s], left)
            && Announced(log + [n], sessions[s.target.id := s], left)
  {
    AddKeepsInverse(targetIds, sessions, s);
    NoticeKeepsAnnounced(log, if from.Some? then Updated(s.target) else Discovered(s.target), sessions, cache);
  }

  lemma CachedWasAnnounced(log: seq<Notice>, sessions: map<int, Session>, cache: map<string, CacheEntry>, e: string)
    requires Announced(log, sessions, cache) && e in cache
    ensures PhaseOf(log, cache[e].target.id) == Live
  {
  }

  // A session that changes its endpoint to one no session has, or keeps it.
  lemma MoveKeepsInverse(targetIds: map<string, int>, sessions: map<int, Session>, s: Session)
    requires Inverse(targetIds, sessions) && s.target.id in sessions
    requires s.endpoint in targetIds ==> targetIds[s.endpoint] == s.target.id
    ensures Inverse((targetIds - {sessions[s.target.id].endpoint})[s.endpoint := s.target.id],
                    sessions[s.target.id := s])
  {
  }

  lemma RemoveKeepsInverse(targetIds: map<string, int>, sessions: map<int, Session>, endpoint: string)
    requires Inverse(targetIds, sessions) && endpoint in targetIds
    ensures Inverse(targetIds - {endpoint}, sessions - {targetIds[endpoint]})
  {
  }

  // A session that is left has an endpoint that is left.
  lemma SessionsHaveEndpoints(targetIds: map<string, int>, sessions: map<int, Session>)
    requires Inverse(targetIds, sessions)
    ensures (exists i :: i in sessions) ==> targetIds.Keys != {}
  {
    if i :| i in sessions {
      assert sessions[i].endpoint in targetIds;
    }
  }

  // How far the sweep of AllTargetsLost has got: of the endpoints outside `todo`, those with an
  // active session have stayed and the others have moved to the cache.
  ghost predicate Swept(todo: set<string>, targetIds0: map<string, int>, sessions0: map<int, Session>,
                        cache0: map<string, CacheEntry>, targetIds: map<string, int>, sessions: map<int, Session>,
                        cache: map<string, CacheEntry>)
    requires Inverse(targetIds0, sessions0)
  {
    && (forall e :: e in targetIds <==> e in targetIds0 && (e in todo || sessions0[targetIds0[e]].IsActive()))
    && (forall i :: i in sessions <==> i in sessions0 && (sessions0[i].endpoint in todo || sessions0[i].IsActive()))
    && (forall e :: e in targetIds ==> targetIds[e] == targetIds0[e])
    && (forall i :: i in sessions ==> sessions[i] == sessions0[i])
    && (forall e :: e in cache <==> e in cache0 || (e in targetIds0 && e !in targetIds))
    && (forall e :: e in targetIds0 && e !in targetIds ==>
          cache[e].target == sessions0[targetIds0[e]].target.(receiveDisabled := true))
    && (forall e :: e in cache0 && !(e in targetIds0 && e !in targetIds) ==> cache[e] == cache0[e])
  }

  lemma SweepStarts(targetIds: map<string, int>, sessions: map<int, Session>, cache: map<string, CacheEntry>)
    requires Inverse(targetIds, sessions)
    ensures Swept(targetIds.Keys, targetIds, sessions, cache, targetIds, sessions, cache)
  {
  }

  lemma SweepMoves(e: string, entry: CacheEntry, todo: set<string>, targetIds0: map<string, int>,
                   sessions0: map<int, Session>, cache0: map<string, CacheEntry>, targetIds: map<string, int>,
                   sessions: map<int, Session>, cache: map<string, CacheEntry>)
    requires Inverse(targetIds0, sessions0) && e in todo && todo <= targetIds0.Keys
    requires Swept(todo, targetIds0, sessions0, cache0, targetIds, sessions, cache)
    requires !sessions0[targetIds0[e]].IsActive()
    requires entry.target == sessions0[targetIds0[e]].target.(receiveDisabled := true)
    ensures Swept(todo - {e}, targetIds0, sessions0, cache0, targetIds - {e}, sessions - {targetIds0[e]},
                  cache[e := entry])
  {
    assert forall i :: i in sessions0 && sessions0[i].endpoint == e ==> i == targetIds0[e];
  }

  lemma SweepStays(e: string, todo: set<string>, targetIds0: map<string, int>,
                   sessions0: map<int, Session>, cache0: map<string, CacheEntry>, targetIds: map<string, int>,
                   sessions: map<int, Session>, cache: map<string, CacheEntry>)
    requires Inverse(targetIds0, sessions0) && e in todo && todo <= targetIds0.Keys
    requires Swept(todo, targetIds0, sessions0, cache0, targetIds, sessions, cache)
    requires sessions0[targetIds0[e]].IsActive()
    ensures Swept(todo - {e}, targetIds0, sessions0, cache0, targetIds, sessions, cache)
  {
    assert forall i :: i in sessions0 && sessions0[i].endpoint == e ==> i == targetIds0[e];
  }

  // Notices of updates move no id to another phase, if the traces stay well shaped.
  lemma {:induction false} UpdatesKeepPhase(log: seq<Notice>, longer: seq<Notice>, id: int)
    requires log <= longer && (forall k :: |log| <= k < |longer| ==> longer[k].Updated?)
    requires PhaseOf(longer, id) != Broken
    ensures PhaseOf(longer, id) == PhaseOf(log, id)
    decreases |longer|
  {
    if |longer| > |log| {
      assert longer[|longer| - 1].Updated?;
      UpdatesKeepPhase(log, Init(longer), id);
    } else {
      assert longer == log;
    }
  }

  // An endpoint whose target moves to the cache in a sweep and finds an entry there.
  ghost predicate Displaces(e: string, targetIds: map<string, int>, sessions: map<int, Session>, cache: map<string,
                            CacheEntry>)
    requires Inverse(targetIds, sessions)
  {
    e in targetIds && !sessions[targetIds[e]].IsActive() && e in cache
  }

  lemma SweptHolds(id: int, targetIds0: map<string, int>, sessions0: map<int, Session>, cache0: map<string, CacheEntry>,
                   targetIds: map<string, int>, sessions: map<int, Session>, cache: map<string, CacheEntry>)
    requires Inverse(targetIds0, sessions0) && CacheApart(sessions0, cache0)
    requires Swept({}, targetIds0, sessions0, cache0, targetIds, sessions, cache) && Held(sessions0, cache0, id)
    ensures Held(sessions, cache, id)
            <==> !exists e :: Displaces(e, targetIds0, sessions0, cache0) && cache0[e].target.id == id
  {
    if id in sessions0 {
      var e := sessions0[id].endpoint;
      if id !in sessions {
        assert e in cache && cache[e].target.id == id;
      }
    } else {
      var e :| e in cache0 && cache0[e].target.id == id;
      if Displaces(e, targetIds0, sessions0, cache0) {
        forall other | other in cache
          ensures cache[other].target.id != id
        {
          if other in targetIds0 && other !in targetIds {
            var i := targetIds0[other];
            assert i in sessions0 && sessions0[i].target.id == i;
          }
        }
      } else {
        assert e in cache && cache[e] == cache0[e];
      }
    }
  }

  // The loss of all targets forgets one if and only if an endpoint without an active session has
  // a cache entry.
  lemma SweepForgetsIff(log0: seq<Notice>, targetIds0: map<string, int>, sessions0: map<int, Session>,
                        cache0: map<string, CacheEntry>, log: seq<Notice>, targetIds: map<string, int>,
                        sessions: map<int, Session>, cache: map<string, CacheEntry>)
    requires Inverse(targetIds0, sessions0) && CacheApart(sessions0, cache0) && Announced(log0, sessions0, cache0)
    requires Remembered(log0, sessions0, cache0) && Swept({}, targetIds0, sessions0, cache0, targetIds, sessions, cache)
    requires log0 <= log && (forall k :: |log0| <= k < |log| ==> log[k].Updated?) && Announced(log, sessions, cache)
    ensures Remembered(log, sessions, cache) <==> !exists e :: Displaces(e, targetIds0, sessions0, cache0)
  {
    forall i
      ensures PhaseOf(log, i) == PhaseOf(log0, i)
    {
      UpdatesKeepPhase(log0, log, i);
    }
    if e :| Displaces(e, targetIds0, sessions0, cache0) {
      var i := cache0[e].target.id;
      SweptHolds(i, targetIds0, sessions0, cache0, targetIds, sessions, cache);
      assert PhaseOf(log, i) == Live && !Held(sessions, cache, i);
    } else {
      forall i | PhaseOf(log, i) == Live
        ensures Held(sessions, cache, i)
      {
        assert PhaseOf(log0, i) == Live;
        SweptHolds(i, targetIds0, sessions0, cache0, targetIds, sessions, cache);
      }
    }
  }

  // A forgotten target stays forgotten, whatever follows: it is never reported lost -----------

  lemma DiscoveryKeepsForgotten(log: seq<Notice>, n: Notice, sessions0: map<int, Session>,
                                cache0: map<string, CacheEntry>, sessions: map<int, Session>,
                                cache: map<string, CacheEntry>, id: int)
    requires Forgotten(log, sessions0, cache0, id)
    requires Held(sessions0, cache0, n.target.id) || PhaseOf(log, n.target.id) == Unseen
    requires sessions.Keys <= sessions0.Keys + {n.target.id}
    requires forall e :: e in cache ==> e in cache0 && cache[e] == cache0[e]
    ensures Forgotten(log + [n], sessions, cache, id)
  {
    PhaseSnoc(log, n, id);
    forall e | e in cache
      ensures cache[e].target.id != id
    {
      assert cache0[e].target.id != id;
    }
  }

  lemma LossKeepsForgotten(log: seq<Notice>, targetIds: map<string, int>, sessions: map<int, Session>,
                           cache: map<string, CacheEntry>, endpoint: string, timer: nat, id: int)
    requires Inverse(targetIds, sessions) && endpoint in targetIds && Forgotten(log, sessions, cache, id)
    ensures var disabled := sessions[targetIds[endpoint]].target.(receiveDisabled := true);
            Forgotten(log + [Updated(disabled)], sessions - {disabled.id},
                      cache[endpoint := CacheEntry(disabled, timer)], id)
  {
    var disabled := sessions[targetIds[endpoint]].target.(receiveDisabled := true);
    var cache' := cache[endpoint := CacheEntry(disabled, timer)];
    var i := targetIds[endpoint];
    assert i in sessions && sessions[i].target.id == i;
    PhaseSnoc(log, Updated(disabled), id);
    forall e | e in cache'
      ensures cache'[e].target.id != id
    {
      assert e != endpoint ==> cache'[e] == cache[e];
    }
  }

  lemma ExpiryKeepsForgotten(log: seq<Notice>, sessions: map<int, Session>, cache: map<string, CacheEntry>,
                             endpoint: string, id: int)
    requires endpoint in cache && Forgotten(log, sessions, cache, id)
    ensures Forgotten(log + [Gone(cache[endpoint].target)], sessions, cache - {endpoint}, id)
  {
    PhaseSnoc(log, Gone(cache[endpoint].target), id);
  }

  lemma SweepKeepsForgotten(log0: seq<Notice>, targetIds0: map<string, int>, sessions0: map<int, Session>,
                            cache0: map<string, CacheEntry>, log: seq<Notice>, targetIds: map<string, int>,
                            sessions: map<int, Session>, cache: map<string, CacheEntry>, id: int)
    requires Inverse(targetIds0, sessions0) && Swept({}, targetIds0, sessions0, cache0, targetIds, sessions, cache)
    requires log0 <= log && (forall k :: |log0| <= k < |log| ==> log[k].Updated?) && Announced(log, sessions, cache)
    requires Forgotten(log0, sessions0, cache0, id)
    ensures Forgotten(log, sessions, cache, id)
  {
    UpdatesKeepPhase(log0, log, id);
    forall e | e in cache
      ensures cache[e].target.id != id
    {
      if e in targetIds0 && e !in targetIds {
        var i := targetIds0[e];
        assert i in sessions0 && sessions0[i].target.id == i;
      } else {
        assert cache[e] == cache0[e];
      }
    }
  }

  lemma LossFollows(was: Index, endpoint: string, timer: nat)
    requires Inverse(was.targetIds, was.sessions) && CacheApart(was.sessions, was.cache)
    requires Announced(was.log, was.sessions, was.cache) && endpoint in was.targetIds
    requires !was.sessions[was.targetIds[endpoint]].IsActive()
    ensures var disabled := was.sessions[was.targetIds[endpoint]].target.(receiveDisabled := true);
            var after := Index(was.targetIds - {endpoint}, was.sessions - {disabled.id},
                               was.cache[endpoint := CacheEntry(disabled, timer)], was.log + [Updated(disabled)]);
            && (was.Remembers() ==> (after.Remembers() <==> !was.Forgets(Missed(endpoint))))
            && (forall i :: was.HasForgotten(i) ==> after.HasForgotten(i))
  {
    if was.Remembers() {
      LossForgetsIff(was.log, was.targetIds, was.sessions, was.cache, endpoint, timer);
    }
    forall i | was.HasForgotten(i) {
      LossKeepsForgotten(was.log, was.targetIds, was.sessions, was.cache, endpoint, timer, i);
    }
  }

  // All that was told since is that the targets of the endpoints that left, each once and in the
  // order of `lost`, no longer receive.
  ghost predicate ToldOfLost(lost: seq<string>, targetIds0: map<string, int>, sessions0: map<int, Session>,
                             log0: seq<Notice>, targetIds: map<string, int>, log: seq<Notice>)
    requires Inverse(targetIds0, sessions0)
  {
    && (forall e :: e in lost <==> e in targetIds0 && e !in targetIds)
    && (forall j, k :: 0 <= j < k < |lost| ==> lost[j] != lost[k])
    && log0 <= log && |log| == |log0| + |lost|
    && (forall k :: 0 <= k < |lost| ==>
          log[|log0| + k] == Updated(sessions0[targetIds0[lost[k]]].target.(receiveDisabled := true)))
  }

  lemma LostNext(e: string, lost: seq<string>, targetIds0: map<string, int>, sessions0: map<int, Session>,
                 log0: seq<Notice>, targetIds: map<string, int>, log: seq<Notice>)
    requires Inverse(targetIds0, sessions0) && e in targetIds0 && e in targetIds
    requires ToldOfLost(lost, targetIds0, sessions0, log0, targetIds, log)
    ensures ToldOfLost(lost + [e], targetIds0, sessions0, log0, targetIds - {e},
                       log + [Updated(sessions0[targetIds0[e]].target.(receiveDisabled := true))])
  {
  }

  lemma OnlyUpdatesOfLost(lost: seq<string>, targetIds0: map<string, int>, sessions0: map<int, Session>,
                          log0: seq<Notice>, targetIds: map<string, int>, log: seq<Notice>)
    requires Inverse(targetIds0, sessions0) && ToldOfLost(lost, targetIds0, sessions0, log0, targetIds, log)
    ensures log0 <= log && forall k :: |log0| <= k < |log| ==> log[k].Updated?
  {
    forall k | |log0| <= k < |log|
      ensures log[k].Updated?
    {
      var i := k - |log0|;
      assert lost[i] in targetIds0 && log[|log0| + i] == log[k];
    }
  }

  datatype Event =
    | Found(target: ShareTarget, endpoint: string, certificate: Option<int>)
    | Missed(endpoint: string)
    | Expired(timer: nat)
    | AllMissed

  // The events that make the manager forget a target, if it remembers every one.
  ghost predicate IsForgetful(event: Event, targetIds: map<string, int>, sessions: map<int, Session>,
                              cache: map<string, CacheEntry>)
    requires Inverse(targetIds, sessions)
  {
    match event
    case Missed(e) => Displaces(e, targetIds, sessions, cache)
    case AllMissed => exists e :: Displaces(e, targetIds, sessions, cache)
    case _ => false
  }

  // What the maps and the log are at some point.
  datatype Index = Index(
    targetIds: map<string, int>, sessions: map<int, Session>, cache: map<string, CacheEntry>, log: seq<Notice>)
  {
    ghost predicate Remembers() {
      Remembered(log, sessions, cache)
    }

    ghost predicate HasForgotten(id: int) {
      Forgotten(log, sessions, cache, id)
    }

    ghost predicate Forgets(event: Event) {
      Inverse(targetIds, sessions) && IsForgetful(event, targetIds, sessions, cache)
    }
  }

  // What an event does to the manager's memory: as long as every target is remembered, it forgets
  // one if and only if it is of the kind that Forgets describes; a forgotten target stays so; and
  // no id is announced but that of a discovery.
  ghost predicate Follows(before: Index, event: Event, after: Index) {
    && (before.Remembers() ==> (after.Remembers() <==> !before.Forgets(event)))
    && (forall i :: before.HasForgotten(i) ==> after.HasForgotten(i))
    && (forall i :: PhaseOf(before.log, i) == Unseen && !(event.Found? && event.target.id == i) ==>
          PhaseOf(after.log, i) == Unseen)
  }

  // A run from one point to another: the events `handled` and what the manager was before each.
  ghost predicate Leads(start: Index, handled: seq<Event>, before: seq<Index>, now: Index) {
    && |before| == |handled| && (if before == [] then now == start else before[0] == start)
    && (start.Remembers() ==>
          (now.Remembers() <==> forall k :: 0 <= k < |handled| ==> !before[k].Forgets(handled[k])))
    && (forall i :: start.HasForgotten(i) ==> now.HasForgotten(i))
  }

  lemma LeadsOn(start: Index, handled: seq<Event>, before: seq<Index>, now: Index, event: Event, after: Index)
    requires Leads(start, handled, before, now) && Follows(now, event, after)
    ensures Leads(start, handled + [event], before + [now], after)
  {
    var events, points := handled + [event], before + [now];
    if start.Remembers() {
      if !now.Remembers() {
        var i :| PhaseOf(now.log, i) == Live && !Held(now.sessions, now.cache, i);
        assert now.HasForgotten(i) && after.HasForgotten(i);
      }
      assert forall k :: 0 <= k < |handled| ==> events[k] == handled[k] && points[k] == before[k];
      assert points[|handled|].Forgets(events[|handled|]) <==> now.Forgets(event);
    }
  }

  lemma SweepFollows(was: Index, now: Index)
    requires Inverse(was.targetIds, was.sessions) && CacheApart(was.sessions, was.cache)
    requires Announced(was.log, was.sessions, was.cache) && Announced(now.log, now.sessions, now.cache)
    requires Swept({}, was.targetIds, was.sessions, was.cache, now.targetIds, now.sessions, now.cache)
    requires was.log <= now.log && forall k :: |was.log| <= k < |now.log| ==> now.log[k].Updated?
    ensures Follows(was, AllMissed, now)
  {
    if was.Remembers() {
      SweepForgetsIff(was.log, was.targetIds, was.sessions, was.cache, now.log, now.targetIds, now.sessions, now.cache);
    }
    forall i | was.HasForgotten(i)
      ensures now.HasForgotten(i)
    {
      SweepKeepsForgotten(was.log, was.targetIds, was.sessions, was.cache, now.log, now.targetIds, now.sessions,
                          now.cache, i);
    }
    forall i | PhaseOf(was.log, i) == Unseen
      ensures PhaseOf(now.log, i) == Unseen
    {
      UnseenStays(was.log, now.log, i);
    }
  }

  // Without a discovery of it an id is not announced, or its trace would be broken.
  lemma {:induction false} UnseenStays(log: seq<Notice>, longer: seq<Notice>, id: int)
    requires log <= longer && PhaseOf(log, id) == Unseen && PhaseOf(longer, id) != Broken
    requires forall k :: |log| <= k < |longer| && longer[k].Discovered? ==> longer[k].target.id != id
    ensures PhaseOf(longer, id) == Unseen
    decreases |longer|
  {
    if |longer| > |log| {
      assert Last(longer) == longer[|longer| - 1];
      UnseenStays(log, Init(longer), id);
    } else {
      assert longer == log;
    }
  }

  class OutgoingTargetsManager {
    var targetIds: map<string, int>        // outgoing_target_id_map_
    var sessions: map<int, Session>        // outgoing_share_session_map_
    var cache: map<string, CacheEntry>     // discovery_cache_
    var timers: map<nat, string>           // the expiry timers that can still fire, and the endpoint each captured
    var nextTimer: nat
    ghost var log: seq<Notice>

    ghost predicate Valid()
      reads this
    {
      && Inverse(targetIds, sessions)
      && CacheApart(sessions, cache)
      && TimersOwned(cache, timers) && (forall t :: t in timers ==> t < nextTimer)
      && Announced(log, sessions, cache)
    }

    ghost function Now(): Index
      reads this
    {
      Index(targetIds, sessions, cache, log)
    }

    constructor ()
      ensures Valid() && targetIds == map[] && sessions == map[] && cache == map[] && log == []
    {
      targetIds, sessions, cache, timers, nextTimer, log := map[], map[], map[], map[], 0, [];
    }

    // The service changes a session that it got from GetOutgoingShareSession.
    method SetConnectionState(id: int, connected: bool, connecting: bool)
      requires Valid() && id in sessions
      modifies this`sessions
      ensures Valid()
      ensures sessions == old(sessions)[id := old(sessions)[id].(connected := connected, connecting := connecting)]
    {
      sessions := sessions[id := sessions[id].(connected := connected, connecting := connecting)];
    }

    method FindExistingTargetId(endpoint: string, target: ShareTarget) returns (id: Option<int>)
      requires Valid()
      ensures endpoint in targetIds ==> id == Some(targetIds[endpoint])
      ensures id.Some? && endpoint !in targetIds ==>
        id.value in sessions && target.deviceId != "" && sessions[id.value].target.deviceId == target.deviceId
      ensures id.None? ==>
        endpoint !in targetIds &&
        (target.deviceId == "" || forall i :: i in sessions ==> sessions[i].target.deviceId != target.deviceId)
    {
      if endpoint in targetIds {
        return Some(targetIds[endpoint]);
      }
      if target.deviceId == "" {
        return None;
      }
      if i :| i in sessions && sessions[i].target.deviceId == target.deviceId {
        return Some(sessions[i].target.id);
      }
      return None;
    }

    // Erasing a cache entry destroys, and so cancels, its timer.
    method EraseCacheEntry(endpoint: string)
      requires endpoint in cache && TimersOwned(cache, timers)
      modifies this`cache, this`timers
      ensures TimersOwned(cache, timers) && cache == old(cache) - {endpoint}
      ensures forall t :: t in timers ==> t in old(timers)
    {
      timers := timers - {cache[endpoint].timer};
      cache := cache - {endpoint};
    }

    method FindInDiscoveryCache(endpoint: string, target: ShareTarget) returns (id: Option<int>, ghost from: string)
      requires TimersOwned(cache, timers)
      modifies this`cache, this`timers
      ensures TimersOwned(cache, timers) && (forall t :: t in timers ==> t in old(timers))
      ensures id.Some? ==> from in old(cache) && id == Some(old(cache)[from].target.id) && cache == old(cache) - {from}
      ensures id.None? ==> cache == old(cache)
      ensures endpoint in old(cache) ==> id.Some? && from == endpoint
      ensures id.Some? && endpoint !in old(cache) ==>
        target.deviceId != "" && old(cache)[from].target.deviceId == target.deviceId
      ensures id.None? ==>
        endpoint !in cache &&
        (target.deviceId == "" || forall e :: e in cache ==> cache[e].target.deviceId != target.deviceId)
    {
      from := endpoint;
      if endpoint in cache {
        id := Some(cache[endpoint].target.id);
        EraseCacheEntry(endpoint);
        return;
      }
      if target.deviceId == "" {
        return None, from;
      }
      if e :| e in cache && cache[e].target.deviceId == target.deviceId {
        id := Some(cache[e].target.id);
        from := e;
        EraseCacheEntry(e);
        return;
      }
      return None, from;
    }

    // `conflict` reports that a branch the source marks as one that should not happen was taken.
    method AddTarget(target: ShareTarget, endpoint: string, certificate: Option<int>) returns (conflict: bool)
      modifies this`targetIds, this`sessions
      ensures conflict == (endpoint in old(targetIds) || target.id in old(sessions))
      ensures endpoint in old(targetIds) && old(targetIds)[endpoint] != target.id ==>
        targetIds == old(targetIds) && sessions == old(sessions)
      ensures !(endpoint in old(targetIds) && old(targetIds)[endpoint] != target.id) ==>
        && targetIds == old(targetIds)[endpoint := target.id]
        && sessions == if target.id !in old(sessions)
                       then old(sessions)[target.id := Session(endpoint, target, certificate, false, false)]
                       else if old(sessions)[target.id].connected || certificate.None? then old(sessions)
                       else old(sessions)[target.id := old(sessions)[target.id].(certificate := certificate)]
    {
      conflict := false;
      if endpoint in targetIds {
        conflict := true;
        if targetIds[endpoint] != target.id {
          return;
        }
      } else {
        targetIds := targetIds[endpoint := target.id];
      }
      if target.id in sessions {
        conflict := true;
        if sessions[target.id].connected {
          return;
        }
      } else {
        sessions := sessions[target.id := Session(endpoint, target, None, false, false)];
      }
      if certificate.Some? {
        sessions := sessions[target.id := sessions[target.id].(certificate := certificate)];
      }
    }

    // An endpoint is discovered with a target whose id was never announced. Observers get one
    // notice. If the endpoint or the device is known, that notice updates the known id.
    method OnShareTargetDiscovered(target: ShareTarget, endpoint: string,
                                   certificate: Option<int>) returns (ghost id: int)
      requires Valid() && PhaseOf(log, target.id) == Unseen
      modifies this
      ensures Valid()
      ensures log == old(log) + [if id == target.id then Discovered(target) else Updated(target.(id := id))]
      ensures endpoint in old(targetIds) ==> id == old(targetIds)[endpoint]
      ensures endpoint !in old(targetIds) && id in old(sessions) ==>
        target.deviceId != "" && old(sessions)[id].target.deviceId == target.deviceId
      ensures id !in old(sessions) ==>
        && endpoint !in old(targetIds)
        && (target.deviceId == "" ||
            forall i :: i in old(sessions) ==> old(sessions)[i].target.deviceId != target.deviceId)
        && (endpoint in old(cache) ==> id == old(cache)[endpoint].target.id)
        && (id == target.id ==>
              && cache == old(cache) && endpoint !in cache
              && (target.deviceId == "" || forall e :: e in cache ==> cache[e].target.deviceId != target.deviceId))
        && (id != target.id ==> exists e ::
              && e in old(cache) && old(cache)[e].target.id == id && cache == old(cache) - {e}
              && (e == endpoint || (target.deviceId != "" && old(cache)[e].target.deviceId == target.deviceId)))
        && targetIds == old(targetIds)[endpoint := id]
        && sessions == old(sessions)[id := Session(endpoint, target.(id := id), certificate, false, false)]
      ensures id in old(sessions) ==>
        var was := old(sessions)[id];
        && cache == old(cache)
        && sessions == old(sessions)[id := if was.connected then was.(target := target.(id := id))
             else Session(endpoint, target.(id := id), certificate, was.connected, was.connecting)]
        && targetIds == if was.connected then old(targetIds) else (old(targetIds) - {was.endpoint})[endpoint := id]
    {
      var known := FindExistingTargetId(endpoint, target);
      if known.Some? {
        id := known.value;
        UpdateKnownTarget(known.value, target.(id := known.value), endpoint, certificate);
        return;
      }
      ghost var from: string;
      known, from := FindInDiscoveryCache(endpoint, target);
      var merged := if known.Some? then target.(id := known.value) else target;
      id := merged.id;
      if known.Some? {
        CachedWasAnnounced(log, sessions, old(cache), from);
      }
      AddDiscoveredTarget(merged, endpoint, certificate, old(cache),
                          if known.Some? then Some(from) else None, known.Some?);
    }

    // The end of OnShareTargetDiscovered for a target without a session, which takes the id of
    // its cache entry, if it had one: `cache0` is the cache with that entry, kept for `from`.
    method AddDiscoveredTarget(target: ShareTarget, endpoint: string, certificate: Option<int>,
                               ghost cache0: map<string, CacheEntry>, ghost from: Option<string>, inCache: bool)
      requires Inverse(targetIds, sessions) && CacheApart(sessions, cache0) && Announced(log, sessions, cache0)
      requires TimersOwned(cache, timers) && forall t :: t in timers ==> t < nextTimer
      requires endpoint !in targetIds && inCache == from.Some?
      requires if inCache then
                 && from.value in cache0 && cache0[from.value].target.id == target.id && cache == cache0 - {from.value}
               else cache == cache0 && PhaseOf(log, target.id) == Unseen
      modifies this`targetIds, this`sessions, this`log
      ensures Valid() && target.id !in old(sessions)
      ensures log == old(log) + [if inCache then Updated(target) else Discovered(target)]
      ensures targetIds == old(targetIds)[endpoint := target.id]
      ensures sessions == old(sessions)[target.id := Session(endpoint, target, certificate, false, false)]
    {
      NewSessionKeeps(log, targetIds, sessions, cache0, from, Session(endpoint, target, certificate, false, false));
      var conflict := AddTarget(target, endpoint, certificate);
      assert !conflict;
      log := log + [if inCache then Updated(target) else Discovered(target)];
    }

    // The branch of OnShareTargetDiscovered for a target that has a session.
    method UpdateKnownTarget(id: int, merged: ShareTarget, endpoint: string, certificate: Option<int>)
      requires Valid() && id in sessions && merged.id == id
      requires endpoint in targetIds ==> targetIds[endpoint] == id
      modifies this`targetIds, this`sessions, this`log
      ensures Valid() && log == old(log) + [Updated(merged)]
      ensures var was := old(sessions)[id];
        && sessions == old(sessions)[id := if was.connected then was.(target := merged)
             else Session(endpoint, merged, certificate, was.connected, was.connecting)]
        && targetIds == if was.connected then old(targetIds) else (old(targetIds) - {was.endpoint})[endpoint := id]
    {
      var oldEndpoint := sessions[id].endpoint;
      MoveKeepsInverse(targetIds, sessions, Session(endpoint, merged, certificate, false, sessions[id].connecting));
      var updated := UpdateSessionForDedup(id, merged, certificate, endpoint);
      if updated && oldEndpoint != endpoint {
        targetIds := targetIds - {oldEndpoint};
        targetIds := targetIds[endpoint := id];
      }
      assert updated ==> targetIds == (old(targetIds) - {oldEndpoint})[endpoint := id];
      NoticeKeepsAnnounced(log, Updated(merged), sessions, cache);
      log := log + [Updated(merged)];
    }

    // OutgoingShareSession::UpdateSessionForDedup on the session kept under `id`.
    method UpdateSessionForDedup(id: int, target: ShareTarget, certificate: Option<int>, endpoint: string)
      returns (updated: bool)
      requires id in sessions && target.id == sessions[id].target.id
      modifies this`sessions
      ensures updated == !old(sessions)[id].connected
      ensures sessions == old(sessions)[id :=
        if updated then old(sessions)[id].(target := target, endpoint := endpoint, certificate := certificate)
        else old(sessions)[id].(target := target)]
    {
      var session := sessions[id].(target := target);
      updated := !session.connected;
      if updated {
        session := session.(endpoint := endpoint, certificate := certificate);
      }
      sessions := sessions[id := session];
    }

    // An endpoint that maps to an id without a session does not exist.
    method RemoveTarget(endpoint: string, closeConnected: bool) returns (removed: Option<ShareTarget>)
      requires Valid()
      modifies this`targetIds, this`sessions
      ensures Valid()
      ensures removed.Some? <==>
        endpoint in old(targetIds)
        && (closeConnected
            || (var s := old(sessions)[old(targetIds)[endpoint]]; !s.connected && !s.connecting))
      ensures removed.None? ==> targetIds == old(targetIds) && sessions == old(sessions)
      ensures removed.Some? ==>
        var id := old(targetIds)[endpoint];
        && removed.value == old(sessions)[id].target
        && targetIds == old(targetIds) - {endpoint} && sessions == old(sessions) - {id}
    {
      if endpoint !in targetIds {
        return None;
      }
      var id := targetIds[endpoint];
      if id !in sessions {
        assert false;
      }
      if !closeConnected && sessions[id].IsActive() {
        return None;
      }
      RemoveKeepsInverse(targetIds, sessions, endpoint);
      targetIds := targetIds - {endpoint};
      removed := Some(sessions[id].target);
      sessions := sessions - {id};
    }

    // A new entry with a new timer; the entry it replaces takes its timer with it.
    method PutInCache(endpoint: string, target: ShareTarget)
      requires TimersOwned(cache, timers) && forall t :: t in timers ==> t < nextTimer
      modifies this`cache, this`timers, this`nextTimer
      ensures TimersOwned(cache, timers) && forall t :: t in timers ==> t < nextTimer
      ensures cache == old(cache)[endpoint := CacheEntry(target, old(nextTimer))]
    {
      if endpoint in cache {
        EraseCacheEntry(endpoint);
      }
      timers := timers[nextTimer := endpoint];
      cache := cache[endpoint := CacheEntry(target, nextTimer)];
      nextTimer := nextTimer + 1;
    }

    // The endpoint is lost: unless its session is active, its target moves to the cache as
    // receive disabled, replacing any entry the cache had for the endpoint.
    method OnShareTargetLost(endpoint: string)
      requires Valid()
      modifies this
      ensures Valid()
      ensures var moves := endpoint in old(targetIds)
          && (var s := old(sessions)[old(targetIds)[endpoint]]; !s.connected && !s.connecting);
        && (!moves ==>
          targetIds == old(targetIds) && sessions == old(sessions) && cache == old(cache) && log == old(log))
        && (moves ==>
          var disabled := old(sessions)[old(targetIds)[endpoint]].target.(receiveDisabled := true);
          && targetIds == old(targetIds) - {endpoint} && sessions == old(sessions) - {disabled.id}
          && cache == old(cache)[endpoint := CacheEntry(disabled, old(nextTimer))]
          && log == old(log) + [Updated(disabled)])
    {
      var removed := RemoveTarget(endpoint, false);
      if removed.None? {
        return;
      }
      var disabled := removed.value.(receiveDisabled := true);
      NoticeKeepsAnnounced(log, Updated(disabled), sessions, cache);
      log := log + [Updated(disabled)];
      PutInCache(endpoint, disabled);
    }

    // A timer fires: the entry it finds under its endpoint is the entry that owns it.
    method OnExpiry(timer: nat)
      requires Valid() && timer in timers
      modifies this
      ensures Valid()
      ensures var endpoint := old(timers)[timer];
        && endpoint in old(cache) && old(cache)[endpoint].timer == timer
        && cache == old(cache) - {endpoint} && targetIds == old(targetIds) && sessions == old(sessions)
        && log == old(log) + [Gone(old(cache)[endpoint].target)]
    {
      var endpoint := timers[timer];
      var lost := cache[endpoint].target;
      EraseCacheEntry(endpoint);
      forall i {
        PhaseSnoc(log, Gone(lost), i);
      }
      log := log + [Gone(lost)];
    }

    // Every target without an active session moves to the cache; the others stay.
    // Observers are told of each that moves, once, and of nothing else: `lost` are the endpoints.
    method AllTargetsLost() returns (ghost lost: seq<string>)
      requires Valid()
      modifies this
      ensures Valid() && ToldOfLost(lost, old(targetIds), old(sessions), old(log), targetIds, log)
      ensures Swept({}, old(targetIds), old(sessions), old(cache), targetIds, sessions, cache)
    {
      var todo := targetIds.Keys;
      ghost var targetIds0, sessions0, cache0, log0 := targetIds, sessions, cache, log;
      SweepStarts(targetIds, sessions, cache);
      lost := [];
      while todo != {}
        invariant Valid() && todo <= targetIds0.Keys
        invariant ToldOfLost(lost, targetIds0, sessions0, log0, targetIds, log)
        invariant Swept(todo, targetIds0, sessions0, cache0, targetIds, sessions, cache)
      {
        var e :| e in todo;
        lost := SweepOne(e, todo, targetIds0, sessions0, cache0, log0, lost);
        todo := todo - {e};
      }
    }

    method SweepOne(e: string, ghost todo: set<string>, ghost targetIds0: map<string, int>,
                    ghost sessions0: map<int, Session>, ghost cache0: map<string, CacheEntry>, ghost log0: seq<Notice>,
                    ghost lost0: seq<string>) returns (ghost lost: seq<string>)
      requires Valid() && Inverse(targetIds0, sessions0) && e in todo && todo <= targetIds0.Keys
      requires ToldOfLost(lost0, targetIds0, sessions0, log0, targetIds, log)
      requires Swept(todo, targetIds0, sessions0, cache0, targetIds, sessions, cache)
      modifies this
      ensures Valid() && ToldOfLost(lost, targetIds0, sessions0, log0, targetIds, log)
      ensures Swept(todo - {e}, targetIds0, sessions0, cache0, targetIds, sessions, cache)
    {
      ghost var entry := CacheEntry(sessions[targetIds[e]].target.(receiveDisabled := true), nextTimer);
      lost := lost0;
      ghost var active := sessions[targetIds[e]].IsActive();
      if active {
        SweepStays(e, todo, targetIds0, sessions0, cache0, targetIds, sessions, cache);
      } else {
        SweepMoves(e, entry, todo, targetIds0, sessions0, cache0, targetIds, sessions, cache);
        LostNext(e, lost0, targetIds0, sessions0, log0, targetIds, log);
        lost := lost0 + [e];
      }
      OnShareTargetLost(e);
    }

    // Cleanup walks the endpoint map only, and yet no session is left. Observers are not told.
    method Cleanup()
      requires Valid()
      modifies this
      ensures Valid() && targetIds == map[] && sessions == map[] && cache == map[] && timers == map[]
      ensures log == old(log)
    {
      var todo := targetIds.Keys;
      while todo != {}
        invariant Valid() && todo == targetIds.Keys && log == old(log)
      {
        var e :| e in todo;
        var _ := RemoveTarget(e, true);
        todo := todo - {e};
      }
      SessionsHaveEndpoints(targetIds, sessions);
      assert targetIds.Keys == {};
      assert !exists i :: i in sessions;
      assert sessions.Keys == {};
      cache, timers := map[], map[];
    }
  }

  // What the events come to, one by one ...
  method Find(m: OutgoingTargetsManager, target: ShareTarget, endpoint: string, certificate: Option<int>)
    requires m.Valid() && PhaseOf(m.log, target.id) == Unseen
    modifies m
    ensures m.Valid() && Follows(old(m.Now()), Found(target, endpoint, certificate), m.Now())
  {
    ghost var was := m.Now();
    ghost var _ := m.OnShareTargetDiscovered(target, endpoint, certificate);
    if was.Remembers() {
      DiscoveryRemembers(was.log, Last(m.log), was.sessions, was.cache, m.sessions, m.cache);
    }
    forall i | was.HasForgotten(i)
      ensures m.Now().HasForgotten(i)
    {
      DiscoveryKeepsForgotten(was.log, Last(m.log), was.sessions, was.cache, m.sessions, m.cache, i);
    }
    forall i | PhaseOf(was.log, i) == Unseen && i != target.id
      ensures PhaseOf(m.log, i) == Unseen
    {
      UnseenStays(was.log, m.log, i);
    }
  }

  method Miss(m: OutgoingTargetsManager, endpoint: string)
    requires m.Valid()
    modifies m
    ensures m.Valid() && Follows(old(m.Now()), Missed(endpoint), m.Now())
  {
    ghost var was, timer := m.Now(), m.nextTimer;
    m.OnShareTargetLost(endpoint);
    if endpoint in was.targetIds && !was.sessions[was.targetIds[endpoint]].IsActive() {
      LossFollows(was, endpoint, timer);
      forall i | PhaseOf(was.log, i) == Unseen
        ensures PhaseOf(m.log, i) == Unseen
      {
        UnseenStays(was.log, m.log, i);
      }
    }
  }

  method Expire(m: OutgoingTargetsManager, timer: nat)
    requires m.Valid() && timer in m.timers
    modifies m
    ensures m.Valid() && Follows(old(m.Now()), Expired(timer), m.Now())
    ensures var e := old(m.timers)[timer];
      e in old(m.cache) && m.log == old(m.log) + [Gone(old(m.cache)[e].target)] && m.cache == old(m.cache) - {e}
  {
    ghost var was, endpoint := m.Now(), m.timers[timer];
    m.OnExpiry(timer);
    if was.Remembers() {
      ExpiryRemembers(was.log, was.sessions, was.cache, endpoint);
    }
    forall i | was.HasForgotten(i)
      ensures m.Now().HasForgotten(i)
    {
      ExpiryKeepsForgotten(was.log, was.sessions, was.cache, endpoint, i);
    }
    forall i | PhaseOf(was.log, i) == Unseen
      ensures PhaseOf(m.log, i) == Unseen
    {
      UnseenStays(was.log, m.log, i);
    }
  }

  method Sweep(m: OutgoingTargetsManager)
    requires m.Valid()
    modifies m
    ensures m.Valid() && Follows(old(m.Now()), AllMissed, m.Now())
  {
    ghost var was := m.Now();
    ghost var lost := m.AllTargetsLost();
    OnlyUpdatesOfLost(lost, was.targetIds, was.sessions, was.log, m.targetIds, m.log);
    SweepFollows(was, m.Now());
  }

  // ... and all of them.
  method Handle(m: OutgoingTargetsManager, event: Event)
    requires m.Valid()
    requires event.Found? ==> PhaseOf(m.log, event.target.id) == Unseen
    requires event.Expired? ==> event.timer in m.timers
    modifies m
    ensures m.Valid() && Follows(old(m.Now()), event, m.Now())
  {
    match event {
      case Found(target, endpoint, certificate) => Find(m, target, endpoint, certificate);
      case Missed(endpoint) => Miss(m, endpoint);
      case Expired(timer) => Expire(m, timer);
      case AllMissed => Sweep(m);
    }
  }

  // Every discovery comes with an id of its own.
  ghost predicate FreshIds(log: seq<Notice>, events: seq<Event>) {
    && (forall k :: 0 <= k < |events| && events[k].Found? ==> PhaseOf(log, events[k].target.id) == Unseen)
    && (forall j, k :: 0 <= j < k < |events| && events[j].Found? && events[k].Found? ==>
          events[j].target.id != events[k].target.id)
  }

  // Over any run, if every target is remembered at the start, every one is at the end if and only
  // if no event on the way was of the kind that forgets one; and what is forgotten stays so.
  // `handled` are the events that happen, which are all but the firing of a timer that is not
  // there, and `before` is what the manager is before each.
  method HandleAll(m: OutgoingTargetsManager, events: seq<Event>)
    returns (ghost handled: seq<Event>, ghost before: seq<Index>)
    requires m.Valid() && FreshIds(m.log, events)
    modifies m
    ensures m.Valid() && Leads(old(m.Now()), handled, before, m.Now())
  {
    handled, before := [], [];
    for i := 0 to |events|
      invariant m.Valid() && Leads(old(m.Now()), handled, before, m.Now())
      invariant FreshIds(m.log, events[i..])
    {
      var event := events[i];
      assert events[i..][0] == event && events[i..][1..] == events[i + 1..];
      if !event.Expired? || event.timer in m.timers {
        ghost var now := m.Now();
        Handle(m, event);
        StaysFresh(now.log, m.log, events[i..]);
        LeadsOn(old(m.Now()), handled, before, now, event, m.Now());
        handled, before := handled + [event], before + [now];
      }
    }
  }

  lemma StaysFresh(log: seq<Notice>, longer: seq<Notice>, events: seq<Event>)
    requires events != [] && FreshIds(log, events)
    requires forall i :: PhaseOf(log, i) == Unseen && !(events[0].Found? && events[0].target.id == i) ==>
               PhaseOf(longer, i) == Unseen
    ensures FreshIds(longer, events[1..])
  {
  }

  // How a target can be forgotten: a device that moves to the endpoint of a lost target and is
  // lost there takes the place of that target in the cache.
  method ForgottenTarget() returns (m: OutgoingTargetsManager)
    ensures m.Valid() && PhaseOf(m.log, 1) == Live && !Held(m.sessions, m.cache, 1)
  {
    m := OneLostOneMoved();
    PhaseSnoc(m.log, Updated(ShareTarget(2, "device", true)), 1);
    m.OnShareTargetLost("a");
    assert m.cache.Keys == {"a"} && m.cache["a"].target.id == 2;
  }

  method OneLostOneMoved() returns (m: OutgoingTargetsManager)
    ensures fresh(m) && m.Valid() && PhaseOf(m.log, 1) == Live
    ensures m.targetIds == map["a" := 2]
    ensures m.sessions == map[2 := Session("a", ShareTarget(2, "device", false), None, false, false)]
    ensures m.cache.Keys == {"a"} && m.cache["a"].target.id == 1
  {
    m := OneLostOneFound();
    PhaseSnoc(m.log, Updated(ShareTarget(2, "device", false)), 1);
    assert m.sessions[2].target.deviceId == "device";
    ghost var id := m.OnShareTargetDiscovered(ShareTarget(3, "device", false), "a", None);
    assert id == 2;
  }

  method OneLostOneFound() returns (m: OutgoingTargetsManager)
    ensures fresh(m) && m.Valid() && PhaseOf(m.log, 1) == Live && PhaseOf(m.log, 3) == Unseen
    ensures m.targetIds == map["b" := 2]
    ensures m.sessions == map[2 := Session("b", ShareTarget(2, "device", false), None, false, false)]
    ensures m.cache.Keys == {"a"} && m.cache["a"].target.id == 1
  {
    m := OneLost();
    PhaseSnoc(m.log, Discovered(ShareTarget(2, "device", false)), 1);
    PhaseSnoc(m.log, Discovered(ShareTarget(2, "device", false)), 3);
    ghost var id := m.OnShareTargetDiscovered(ShareTarget(2, "device", false), "b", None);
    assert id == 2;
  }

  method OneLost() returns (m: OutgoingTargetsManager)
    ensures fresh(m) && m.Valid() && m.targetIds == map[] && m.sessions == map[]
    ensures PhaseOf(m.log, 1) == Live && PhaseOf(m.log, 2) == Unseen && PhaseOf(m.log, 3) == Unseen
    ensures m.cache.Keys == {"a"} && m.cache["a"].target == ShareTarget(1, "", true)
  {
    m := new OutgoingTargetsManager();
    var target := ShareTarget(1, "", false);
    ghost var id := m.OnShareTargetDiscovered(target, "a", None);
    assert id == 1 && m.log == [] + [Discovered(target)];
    OnlyPhaseOf(m.log, Updated(ShareTarget(1, "", true)));
    m.OnShareTargetLost("a");
  }

  lemma OnlyPhaseOf(log: seq<Notice>, n: Notice)
    requires |log| == 1 && log[0].Discovered? && log[0].target.id == n.target.id == 1 && n.Updated?
    ensures PhaseOf(log + [n], 1) == Live && PhaseOf(log + [n], 2) == Unseen && PhaseOf(log + [n], 3) == Unseen
  {
    assert Init(log) == [];
    PhaseSnoc(log, n, 1);
    PhaseSnoc(log, n, 2);
    PhaseSnoc(log, n, 3);
  }

  // After any run: the notices about every id are well shaped, and an id that was reported
  // lost is held neither by a session nor by the cache.
  lemma TracesWellShaped(m: OutgoingTargetsManager, id: int)
    requires m.Valid()
    ensures WellShaped(About(m.log, id))
    ensures About(m.log, id) != [] && Last(About(m.log, id)).Gone? ==>
      id !in m.sessions && forall e :: e in m.cache ==> m.cache[e].target.id != id
  {
    PhasesAreShapes(m.log, id);
  }
}
