/** The tracker of games whose entry point has disappeared from disk
    (MissingGames in lutris/scanners/lutris.py).

    `UpdateMissing` queues games and schedules the worker; `Fetch` is the
    worker's body, run to completion, which rechecks every queued game's
    cached path against the file system. The path cache the worker reads is a
    parameter (`get_path_cache()` is memoised, so every read in one run sees
    the same map, or raises the same way), and the file system is a value. */
module MissingGamesTracker {
  import opened PyValues
  import opened Paths
  import opened PathCache
  import opened Collections

  /** Seconds the worker pauses before checking games that arrived while it
      was running. */
  const CheckStall: nat := 3

  /** The paths a run of the worker sees: none when the cache cannot be read. */
  function PathsOf(cache: Result<map<GameId, string>>): map<GameId, string> {
    if cache.Ok? then cache.value else map[]
  }

  /** The game has a non-empty cached path, so its presence can be checked. */
  predicate Checkable(id: GameId, paths: map<GameId, string>) {
    id in paths && paths[id] != ""
  }

  /** The missing set after checking the games `ids`: each checked game with a
      path is missing exactly when its path does not exist; every other game
      keeps its status. */
  function Reclassify(missing: set<GameId>, ids: set<GameId>, paths: map<GameId, string>,
                      fs: FileSystem): (r: set<GameId>)
    ensures forall id :: id in r <==>
              if id in ids && Checkable(id, paths) then !fs.Exists(paths[id]) else id in missing
  {
    (set id | id in missing && !(id in ids && Checkable(id, paths) && fs.Exists(paths[id])))
    + (set id | id in ids && Checkable(id, paths) && !fs.Exists(paths[id]))
  }

  /** Checking games one batch after another is checking them all at once. */
  lemma {:induction false} ReclassifyCompose(missing: set<GameId>, a: set<GameId>, b: set<GameId>,
                                            paths: map<GameId, string>, fs: FileSystem)
    ensures Reclassify(Reclassify(missing, a, paths, fs), b, paths, fs) ==
            Reclassify(missing, a + b, paths, fs)
  {
    var lhs := Reclassify(Reclassify(missing, a, paths, fs), b, paths, fs);
    var rhs := Reclassify(missing, a + b, paths, fs);
    forall id ensures id in lhs <==> id in rhs {
      if id in b && Checkable(id, paths) {
      } else if id in a && Checkable(id, paths) {
      }
    }
  }

  /** Checking the same games twice changes nothing the second time. */
  lemma ReclassifyIdempotent(missing: set<GameId>, ids: set<GameId>, paths: map<GameId, string>,
                             fs: FileSystem)
    ensures Reclassify(Reclassify(missing, ids, paths, fs), ids, paths, fs) ==
            Reclassify(missing, ids, paths, fs)
  {
    ReclassifyCompose(missing, ids, ids, paths, fs);
    assert ids + ids == ids;
  }

  /** A check of one more game that ends where the earlier checks started
      means the earlier checks changed nothing: one check touches only its
      own game, whose status it sets from the file system alone. */
  lemma {:induction false} ReclassifyBackToStart(missing: set<GameId>, checked: set<GameId>, id: GameId,
                                                paths: map<GameId, string>, fs: FileSystem)
    requires Reclassify(Reclassify(missing, checked, paths, fs), {id}, paths, fs) == missing
    ensures Reclassify(missing, checked, paths, fs) == missing
  {
    var before := Reclassify(missing, checked, paths, fs);
    var after := Reclassify(before, {id}, paths, fs);
    forall x ensures x in before <==> x in missing {
      assert x in after <==> x in missing;
      if x == id && Checkable(x, paths) && x in checked {
        assert x in after <==> !fs.Exists(paths[x]);
      }
    }
  }

  /** How the notification state may move from (changed0, n0, s0, missing0)
      to (changed, n, s, missing) while the worker checks games: no more
      notifications than stalls, a change is either still recorded or
      notified, and nothing is notified or recorded when nothing changed. */
  predicate NotifyBounds(changed0: bool, n0: nat, s0: nat, missing0: set<GameId>,
                         changed: bool, n: nat, s: nat, missing: set<GameId>)
  {
    && n0 <= n && s0 <= s && n - n0 <= s - s0
    && (changed0 || missing != missing0 ==> changed || n > n0)
    && (!changed0 && missing == missing0 ==> !changed && n == n0)
  }

  /** Two stretches of checking in turn keep the notification bounds, given
      that a second stretch ending at the start means the first changed
      nothing. */
  lemma NotifyBoundsCompose(c0: bool, n0: nat, s0: nat, m0: set<GameId>,
                            c1: bool, n1: nat, s1: nat, m1: set<GameId>,
                            c2: bool, n2: nat, s2: nat, m2: set<GameId>)
    requires NotifyBounds(c0, n0, s0, m0, c1, n1, s1, m1)
    requires NotifyBounds(c1, n1, s1, m1, c2, n2, s2, m2)
    requires m2 == m0 ==> m1 == m0
    ensures NotifyBounds(c0, n0, s0, m0, c2, n2, s2, m2)
  {
  }

  /** One more checked game keeps the notification bounds of the checks so
      far. */
  lemma CheckStepBounds(missing0: set<GameId>, checked: set<GameId>, id: GameId,
                        paths: map<GameId, string>, fs: FileSystem,
                        c0: bool, n0: nat, s0: nat, c1: bool, n1: nat, s1: nat,
                        c2: bool, n2: nat, s2: nat)
    requires NotifyBounds(c0, n0, s0, missing0, c1, n1, s1, Reclassify(missing0, checked, paths, fs))
    requires NotifyBounds(c1, n1, s1, Reclassify(missing0, checked, paths, fs),
                          c2, n2, s2, Reclassify(Reclassify(missing0, checked, paths, fs), {id}, paths, fs))
    ensures Reclassify(Reclassify(missing0, checked, paths, fs), {id}, paths, fs) ==
            Reclassify(missing0, checked + {id}, paths, fs)
    ensures NotifyBounds(c0, n0, s0, missing0, c2, n2, s2, Reclassify(missing0, checked + {id}, paths, fs))
  {
    var m1 := Reclassify(missing0, checked, paths, fs);
    var m2 := Reclassify(m1, {id}, paths, fs);
    ReclassifyCompose(missing0, checked, {id}, paths, fs);
    if m2 == missing0 {
      ReclassifyBackToStart(missing0, checked, id, paths, fs);
    }
    NotifyBoundsCompose(c0, n0, s0, missing0, c1, n1, s1, m1, c2, n2, s2, m2);
  }

  /** Moving one game from the pending games to the checked ones keeps
      their union. */
  lemma MoveToChecked(pending: set<GameId>, pending0: set<GameId>, checked: set<GameId>,
                      requested: set<GameId>, id: GameId)
    requires pending + {id} == pending0 && pending0 + checked == requested
    ensures pending + (checked + {id}) == requested
  {
  }

  /** The games of a list, `set(q)`. */
  function ElementsOf(q: seq<GameId>): (r: set<GameId>)
    ensures forall id :: id in r <==> id in q
    ensures q == [] ==> r == {}
  {
    set id | id in q
  }

  /** Taking the last element off a list leaves the other elements. */
  lemma ElementsOfPop(q: seq<GameId>)
    requires q != []
    ensures ElementsOf(q[..|q| - 1]) + {q[|q| - 1]} == ElementsOf(q)
  {
    assert q == q[..|q| - 1] + [q[|q| - 1]];
  }

  /** _next_game_id pauses: no full check is pending, the queue is empty and
      games are waiting. */
  predicate Stalls(checkAll: bool, queue: seq<GameId>, waiting: set<GameId>) {
    !checkAll && queue == [] && waiting != {}
  }

  /** The list holds exactly the given games. */
  predicate QueueHolds(q: seq<GameId>, ids: set<GameId>) {
    ElementsOf(q) == ids
  }

  /** The games a worker still has to check: all cached games when a full
      check is pending, otherwise the queue and the games waiting. */
  function PendingOf(checkAll: bool, queue: seq<GameId>, waiting: set<GameId>,
                     cache: Result<map<GameId, string>>): set<GameId>
  {
    if checkAll then PathsOf(cache).Keys else ElementsOf(queue) + waiting
  }

  class MissingGames {
    var missingGameIds: set<GameId>
    /** Games waiting to be checked; None exactly when no worker runs. */
    var checkGameIds: Option<set<GameId>>
    /** Games the worker is checking, taken from the end. */
    var checkGameQueue: seq<GameId>
    var checkAllGames: bool
    /** The missing set changed since the last notification. */
    var changed: bool
    /** How often the `updated` notification has fired. */
    var notifications: nat
    /** Initial delays of the workers started, in order. */
    var workerDelays: seq<nat>
    /** How often the worker paused CheckStall seconds for games that
        arrived while it ran. */
    var stalls: nat

    constructor ()
      ensures missingGameIds == {} && checkGameIds == None && checkGameQueue == []
      ensures !checkAllGames && !changed && notifications == 0
      ensures workerDelays == [] && stalls == 0
    {
      missingGameIds := {};
      checkGameIds := None;
      checkGameQueue := [];
      checkAllGames := false;
      changed := false;
      notifications := 0;
      workerDelays := [];
      stalls := 0;
    }

    /** The games the worker has still to check, with the given path cache. */
    ghost function Pending(cache: Result<map<GameId, string>>): set<GameId>
      reads this
      requires checkGameIds.Some?
    {
      PendingOf(checkAllGames, checkGameQueue, checkGameIds.value, cache)
    }

    /** What is left for the worker, ordered so that every round decreases it. */
    ghost function Work(): nat
      reads this
      requires checkGameIds.Some?
    {
      |checkGameIds.value| + |checkGameQueue|
    }

    /** update_missing: adds the games to the waiting set and starts the
        worker unless it runs already; a worker started for explicit games
        first waits CheckStall seconds. An empty list and None are the same. */
    method UpdateMissing(gameIds: seq<GameId>)
      modifies this
      ensures checkGameIds == Some(old(checkGameIds).GetOr({}) + ElementsOf(gameIds))
      ensures workerDelays == if old(checkGameIds).None?
                              then old(workerDelays) + [if gameIds != [] then CheckStall else 0]
                              else old(workerDelays)
      ensures missingGameIds == old(missingGameIds) && checkGameQueue == old(checkGameQueue)
      ensures checkAllGames == old(checkAllGames) && changed == old(changed)
      ensures notifications == old(notifications) && stalls == old(stalls)
    {
      var startFetch := checkGameIds.None?;
      if checkGameIds.None? || checkGameIds.value == {} {
        checkGameIds := Some({});
      }
      if gameIds != [] {
        checkGameIds := Some(checkGameIds.value + ElementsOf(gameIds));
      } else {
        assert checkGameIds.value + ElementsOf(gameIds) == checkGameIds.value;
      }
      if startFetch {
        var initialDelay := if gameIds != [] then CheckStall else 0;
        workerDelays := workerDelays + [initialDelay];
      }
    }

    /** update_all_missing: asks for a check of every cached game. */
    method UpdateAllMissing()
      modifies this
      ensures checkAllGames
      ensures checkGameIds == Some(old(checkGameIds).GetOr({}))
      ensures workerDelays == if old(checkGameIds).None? then old(workerDelays) + [0] else old(workerDelays)
      ensures missingGameIds == old(missingGameIds) && checkGameQueue == old(checkGameQueue)
      ensures changed == old(changed) && notifications == old(notifications) && stalls == old(stalls)
    {
      ghost var waiting := checkGameIds.GetOr({});
      checkAllGames := true;
      UpdateMissing([]);
      assert waiting + ElementsOf([]) == waiting;
    }

    /** _notify_changed: fires `updated` once for all changes since the last
        time. */
    method NotifyChanged()
      modifies this`changed, this`notifications
      ensures !changed
      ensures notifications == old(notifications) + if old(changed) then 1 else 0
    {
      if changed {
        changed := false;
        notifications := notifications + 1;
      }
    }

    /** The full-check branch of _next_game_id: the queue becomes every
        cached game and the waiting set is cleared. */
    method TakeCachedGames(paths: map<GameId, string>)
      requires checkGameIds.Some?
      modifies this`checkGameQueue, this`checkGameIds
      ensures checkGameIds == Some({})
      ensures ElementsOf(checkGameQueue) == paths.Keys && |checkGameQueue| == |paths.Keys|
    {
      checkGameQueue := ListOf(paths.Keys);
      checkGameIds := Some({});
    }

    /** The full-check branch of _next_game_id: when a full check is
        pending, the flag is cleared and the queue becomes every cached game;
        reading the path cache may raise. */
    method StartFullCheck(cache: Result<map<GameId, string>>) returns (err: Option<PyError>)
      requires checkGameIds.Some?
      modifies this`checkAllGames, this`checkGameQueue, this`checkGameIds
      ensures checkGameIds.Some? && !checkAllGames
      ensures err.Some? <==> old(checkAllGames) && cache.Err?
      ensures err.Some? ==> err.value == cache.error
      ensures err.None? ==> Pending(cache) == old(Pending(cache))
      ensures !old(checkAllGames) ==> checkGameQueue == old(checkGameQueue) && checkGameIds == old(checkGameIds)
      ensures old(checkAllGames) && cache.Ok? ==>
                QueueHolds(checkGameQueue, cache.value.Keys) && checkGameIds == Some({})
    {
      err := None;
      if checkAllGames {
        checkAllGames := false;
        if cache.Err? {
          err := Some(cache.error);
          return;
        }
        TakeCachedGames(cache.value);
      }
    }

    /** The stall branch of _next_game_id: notify, pause, and move the
        waiting games to the queue. */
    method TakeWaitingGames()
      requires checkGameIds.Some?
      modifies this`checkGameQueue, this`checkGameIds, this`changed, this`notifications, this`stalls
      ensures checkGameIds == Some({})
      ensures ElementsOf(checkGameQueue) == old(checkGameIds.value)
      ensures |checkGameQueue| == |old(checkGameIds.value)|
      ensures !changed && notifications == old(notifications) + if old(changed) then 1 else 0
      ensures stalls == old(stalls) + 1
    {
      NotifyChanged();
      stalls := stalls + 1;  // time.sleep(CHECK_STALL)
      checkGameQueue := ListOf(checkGameIds.value);
      checkGameIds := Some({});
    }

    /** `self._check_game_queue.pop()` */
    method PopQueue(ghost cache: Result<map<GameId, string>>) returns (id: GameId)
      requires checkGameQueue != []
      modifies this`checkGameQueue
      ensures old(checkGameQueue) == checkGameQueue + [id]
      ensures ElementsOf(checkGameQueue) + {id} == ElementsOf(old(checkGameQueue))
      ensures checkGameIds.Some? && !checkAllGames ==>
                id in old(Pending(cache)) && Pending(cache) + {id} == old(Pending(cache))
      ensures checkGameIds.Some? ==> Work() < old(Work())
    {
      var last := |checkGameQueue| - 1;
      id := checkGameQueue[last];
      ElementsOfPop(checkGameQueue);
      checkGameQueue := checkGameQueue[..last];
    }

    /** The first part of _next_game_id: a pending full check replaces the
        queue with every cached game; when the queue is empty but games have
        arrived meanwhile, the worker notifies, pauses, and moves them to the
        queue. Loading the cache may fail. */
    method RefillQueue(cache: Result<map<GameId, string>>) returns (err: Option<PyError>, ghost stalled: bool)
      requires checkGameIds.Some?
      modifies this`checkAllGames, this`checkGameQueue, this`checkGameIds,
               this`changed, this`notifications, this`stalls
      ensures checkGameIds.Some? && !checkAllGames
      ensures err.Some? ==> old(checkAllGames) && cache.Err? && err.value == cache.error
      ensures err.None? ==> Pending(cache) == old(Pending(cache))
      ensures err.None? && !old(checkAllGames) ==> Work() == old(Work())
      ensures err.None? && checkGameQueue == [] ==> checkGameIds.value == {}
      ensures changed ==> old(changed)
      ensures notifications == old(notifications) + if old(changed) && !changed then 1 else 0
      ensures stalls == old(stalls) || stalls == old(stalls) + 1
      ensures old(checkAllGames) && cache.Ok? ==>
                QueueHolds(checkGameQueue, cache.value.Keys) && checkGameIds == Some({})
      ensures !old(checkAllGames) && old(checkGameQueue) != [] ==>
                checkGameQueue == old(checkGameQueue) && checkGameIds == old(checkGameIds)
      ensures stalled == Stalls(old(checkAllGames), old(checkGameQueue), old(checkGameIds.value))
      ensures stalled ==>
                && stalls == old(stalls) + 1
                && QueueHolds(checkGameQueue, old(checkGameIds.value)) && checkGameIds == Some({})
                && !changed && notifications == old(notifications) + (if old(changed) then 1 else 0)
      ensures !stalled ==>
                stalls == old(stalls) && changed == old(changed) && notifications == old(notifications)
    {
      stalled := Stalls(checkAllGames, checkGameQueue, checkGameIds.value);
      err := StartFullCheck(cache);
      if err.Some? {
        return;
      }
      if checkGameQueue == [] && checkGameIds.value != {} {
        TakeWaitingGames();
      }
    }

    /** _next_game_id: the next game to check, taken from the end of the
        refilled queue, or None when there is none. */
    method NextGameId(cache: Result<map<GameId, string>>) returns (r: Result<Option<GameId>>)
      requires checkGameIds.Some?
      modifies this`checkAllGames, this`checkGameQueue, this`checkGameIds,
               this`changed, this`notifications, this`stalls
      ensures checkGameIds.Some? && !checkAllGames
      ensures r.Err? ==> old(checkAllGames) && cache.Err? && r.error == cache.error
      ensures r.Ok? && r.value.Some? ==>
                r.value.value in old(Pending(cache)) &&
                Pending(cache) + {r.value.value} == old(Pending(cache)) &&
                (old(checkAllGames) || Work() < old(Work()))
      ensures r == Ok(None) ==> old(Pending(cache)) == {} && Pending(cache) == {} && checkGameQueue == []
      ensures changed ==> old(changed)
      ensures notifications == old(notifications) + if old(changed) && !changed then 1 else 0
      ensures stalls == old(stalls) || stalls == old(stalls) + 1
      ensures notifications > old(notifications) ==> stalls == old(stalls) + 1
    {
      ghost var pending := Pending(cache);
      ghost var work := Work();
      var err, _ := RefillQueue(cache);
      if err.Some? {
        r := Err(err.value);
      } else if checkGameQueue != [] {
        var id := PopQueue(cache);
        r := Ok(Some(id));
      } else {
        r := Ok(None);
      }
    }

    /** One round of the worker's loop: a game with a cached path is marked
        missing exactly when its path does not exist, and any change is
        recorded for the next notification. */
    method CheckGame(gameId: GameId, paths: map<GameId, string>, fs: FileSystem)
      modifies this`missingGameIds, this`changed
      ensures missingGameIds == Reclassify(old(missingGameIds), {gameId}, paths, fs)
      ensures changed == (old(changed) || missingGameIds != old(missingGameIds))
    {
      if Checkable(gameId, paths) {
        var path := paths[gameId];
        if fs.Exists(path) {
          if gameId in missingGameIds {
            missingGameIds := missingGameIds - {gameId};
            changed := true;
          }
        } else if gameId !in missingGameIds {
          missingGameIds := missingGameIds + {gameId};
          changed := true;
        }
      }
    }

    /** One round of _fetch's loop: take the next game and check it, or
        report that the loop stops (no next game, an empty id, or reading
        the path cache raises). */
    method FetchRound(cache: Result<map<GameId, string>>, fs: FileSystem)
      returns (stop: bool, gameId: GameId)
      requires checkGameIds.Some?
      modifies this`checkAllGames, this`checkGameQueue, this`checkGameIds,
               this`changed, this`notifications, this`stalls, this`missingGameIds
      ensures checkGameIds.Some? && !checkAllGames
      ensures NotifyBounds(old(changed), old(notifications), old(stalls), old(missingGameIds),
                           changed, notifications, stalls, missingGameIds)
      ensures stop ==> missingGameIds == old(missingGameIds)
      ensures stop && cache.Ok? && "" !in old(Pending(cache)) ==>
                old(Pending(cache)) == {} && checkGameQueue == [] && Pending(cache) == {}
      ensures !stop ==> cache.Ok? && gameId in old(Pending(cache)) &&
                        Pending(cache) + {gameId} == old(Pending(cache)) &&
                        (old(checkAllGames) || Work() < old(Work())) &&
                        missingGameIds == Reclassify(old(missingGameIds), {gameId}, PathsOf(cache), fs)
    {
      gameId := "";
      var next := NextGameId(cache);
      // an exception (reading the path cache raises) ends the loop as the
      // lack of a next game does
      if next.Err? || next.value.None? || next.value.value == "" || cache.Err? {
        return true, gameId;
      }
      gameId := next.value.value;
      CheckGame(gameId, cache.value, fs);
      stop := false;
    }

    /** What the loop of _fetch keeps: the games checked so far and the
        games still pending make up the games requested at the start, the
        missing set is their reclassification, and the notifications keep
        their bounds. */
    ghost predicate CheckedSoFar(cache: Result<map<GameId, string>>, fs: FileSystem,
                                 requested: set<GameId>, missing0: set<GameId>, checked: set<GameId>,
                                 changed0: bool, notifications0: nat, stalls0: nat)
      reads this
    {
      && checkGameIds.Some? && (checked != {} ==> cache.Ok? && !checkAllGames)
      && Pending(cache) + checked == requested
      && missingGameIds == Reclassify(missing0, checked, PathsOf(cache), fs)
      && NotifyBounds(changed0, notifications0, stalls0, missing0, changed, notifications, stalls, missingGameIds)
    }

    /** One iteration of the loop of _fetch: a checked game joins `checked`;
        a stop means nothing is left when the cache can be read and no
        queued id is empty. */
    method CheckRound(cache: Result<map<GameId, string>>, fs: FileSystem,
                      ghost requested: set<GameId>, ghost missing0: set<GameId>, ghost checked: set<GameId>,
                      ghost changed0: bool, ghost notifications0: nat, ghost stalls0: nat)
      returns (stop: bool, ghost checked': set<GameId>)
      requires CheckedSoFar(cache, fs, requested, missing0, checked, changed0, notifications0, stalls0)
      modifies this`checkAllGames, this`checkGameQueue, this`checkGameIds,
               this`changed, this`notifications, this`stalls, this`missingGameIds
      ensures checkGameIds.Some? && !checkAllGames && checked' <= requested
      ensures !stop ==> CheckedSoFar(cache, fs, requested, missing0, checked', changed0, notifications0, stalls0)
      ensures !stop ==> old(checkAllGames) || Work() < old(Work())
      ensures stop ==>
                && checked' == checked
                && missingGameIds == Reclassify(missing0, checked, PathsOf(cache), fs)
                && NotifyBounds(changed0, notifications0, stalls0, missing0,
                                changed, notifications, stalls, missingGameIds)
      ensures stop && cache.Ok? && "" !in requested ==> checked == requested && checkGameQueue == []
    {
      ghost var before := Pending(cache);
      ghost var changed1, notifications1, stalls1 := changed, notifications, stalls;
      var gameId;
      stop, gameId := FetchRound(cache, fs);
      if stop {
        checked' := checked;
        if cache.Ok? && "" !in requested {
          assert "" !in before;
          assert before == {};
        }
        return;
      }
      MoveToChecked(Pending(cache), before, checked, requested, gameId);
      CheckStepBounds(missing0, checked, gameId, PathsOf(cache), fs, changed0, notifications0, stalls0,
                      changed1, notifications1, stalls1, changed, notifications, stalls);
      checked' := checked + {gameId};
    }

    /** The loop of _fetch: checks game after game until none is left, the
        next id is empty, or reading the path cache raises. */
    method CheckPending(cache: Result<map<GameId, string>>, fs: FileSystem)
      returns (ghost checked: set<GameId>)
      requires checkGameIds.Some?
      modifies this`checkAllGames, this`checkGameQueue, this`checkGameIds,
               this`changed, this`notifications, this`stalls, this`missingGameIds
      ensures checkGameIds.Some? && !checkAllGames
      ensures checked <= old(Pending(cache))
      ensures missingGameIds == Reclassify(old(missingGameIds), checked, PathsOf(cache), fs)
      ensures cache.Ok? && "" !in old(Pending(cache)) ==>
                checked == old(Pending(cache)) && checkGameQueue == []
      ensures NotifyBounds(old(changed), old(notifications), old(stalls), old(missingGameIds),
                           changed, notifications, stalls, missingGameIds)
    {
      ghost var requested := Pending(cache);
      ghost var missing0 := missingGameIds;
      checked := {};
      while true
        invariant CheckedSoFar(cache, fs, requested, missing0, checked, old(changed), old(notifications), old(stalls))
        decreases (if checkAllGames then 1 else 0), Work()
      {
        var stop;
        stop, checked := CheckRound(cache, fs, requested, missing0, checked,
                                    old(changed), old(notifications), old(stalls));
        if stop {
          break;
        }
      }
    }

    /** _fetch, the worker: checks the pending games, then marks itself
        stopped and notifies. Every game it checks is reclassified against
        the file system; when the cache can be read and no queued id is
        empty, that is every pending game. The initial delay is the one
        recorded in workerDelays. */
    method Fetch(cache: Result<map<GameId, string>>, fs: FileSystem)
      returns (ghost checked: set<GameId>)
      requires checkGameIds.Some?
      modifies this`checkAllGames, this`checkGameQueue, this`checkGameIds,
               this`changed, this`notifications, this`stalls, this`missingGameIds
      ensures checkGameIds == None && !checkAllGames && !changed
      ensures checked <= old(Pending(cache))
      ensures missingGameIds == Reclassify(old(missingGameIds), checked, PathsOf(cache), fs)
      ensures cache.Ok? && "" !in old(Pending(cache)) ==>
                checked == old(Pending(cache)) && checkGameQueue == []
      ensures notifications >= old(notifications) && stalls >= old(stalls)
      ensures old(changed) || missingGameIds != old(missingGameIds) ==> notifications > old(notifications)
      ensures notifications - old(notifications) <= stalls - old(stalls) + 1
      ensures !old(changed) && missingGameIds == old(missingGameIds) ==> notifications == old(notifications)
    {
      checked := CheckPending(cache, fs);
      // finally:
      checkGameIds := None;
      NotifyChanged();
    }
  }
}
