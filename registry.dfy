/**
 * The process-wide match table of nakama-go-server/main.go (`matchStore`),
 * the `find_or_create_match` RPC that fills it, and `MatchTerminate`, the one
 * callback that touches it. The table's lock is not modelled: every call here
 * runs alone, as it does under the lock.
 */
module Registry {
  import opened Wrappers
  import opened TicTacToe
  import opened Session

  /** Why the RPC failed: the payload was not JSON for its parameters, or the host could not create a match. */
  datatype RpcError = PayloadError | CreateError(reason: string)

  /** The RPC's parameters; the user id is read but never used. */
  datatype RpcParams = RpcParams(userId: string)

  const ResponsePrefix: string := "{\"match_id\":\""
  const ResponseSuffix: string := "\"}"

  /** The RPC's JSON answer for a match id. */
  function MatchIdResponse(id: string): string {
    ResponsePrefix + id + ResponseSuffix
  }

  /** Reads the match id back out of an RPC answer. */
  function ResponseMatchId(s: string): Option<string> {
    if |s| >= |ResponsePrefix| + |ResponseSuffix| &&
       s[..|ResponsePrefix|] == ResponsePrefix &&
       s[|s| - |ResponseSuffix|..] == ResponseSuffix
    then Some(s[|ResponsePrefix|..|s| - |ResponseSuffix|])
    else None
  }

  /** Every answer carries its match id back unchanged, so distinct ids give distinct answers. */
  lemma ResponseRoundTrip(id: string)
    ensures ResponseMatchId(MatchIdResponse(id)) == Some(id)
  {
    var s := MatchIdResponse(id);
    assert s[..|ResponsePrefix|] == ResponsePrefix;
    assert s[|s| - |ResponseSuffix|..] == ResponseSuffix;
    assert s[|ResponsePrefix|..|s| - |ResponseSuffix|] == id;
  }

  /** The entry the RPC stores for a match it creates: a zero `MatchState` with `Started` set. */
  const CreatedEntry: MatchRecord := MatchRecord(map[], EmptyGrid, "", true, "")

  /** Some entry of the table is marked started. */
  ghost predicate HasStarted(matches: map<string, MatchRecord>) {
    exists id :: id in matches && matches[id].started
  }

  class MatchStore {
    var matches: map<string, MatchRecord>

    /**
     * Every entry is marked started and there is at most one: entries are only
     * ever created started, a started entry is always returned instead of
     * creating another, and nothing removes or updates entries.
     */
    ghost predicate Valid()
      reads this
    {
      |matches| <= 1 && forall id :: id in matches ==> matches[id].started
    }

    constructor ()
      ensures matches == map[] && Valid()
    {
      matches := map[];
    }

    /**
     * `findOrCreateMatch`. `params` is what `json.Unmarshal` made of `payload`
     * and `created` what `nk.MatchCreate` answers. A bad payload fails with the
     * table unchanged; else the id of any started entry is answered with the
     * table unchanged; else a created match is stored started and answered,
     * and a failed creation fails with the table unchanged.
     */
    method FindOrCreateMatch(payload: string, params: Option<RpcParams>, created: Result<string, string>)
      returns (r: Result<string, RpcError>)
      modifies this
      ensures old(Valid()) ==> Valid()
      ensures params.None? ==> r == Failure(PayloadError) && matches == old(matches)
      ensures params.Some? && HasStarted(old(matches)) ==>
        matches == old(matches) &&
        exists id :: id in matches && matches[id].started && r == Success(MatchIdResponse(id))
      ensures params.Some? && !HasStarted(old(matches)) && created.Failure? ==>
        r == Failure(CreateError(created.error)) && matches == old(matches)
      ensures params.Some? && !HasStarted(old(matches)) && created.Success? ==>
        matches == old(matches)[created.value := CreatedEntry] && r == Success(MatchIdResponse(created.value))
    {
      if params.None? {
        return Failure(PayloadError);
      }

      // Go visits the map in an unspecified order: pick the keys one by one.
      var unvisited := matches.Keys;
      while unvisited != {}
        invariant unvisited <= matches.Keys
        invariant forall id :: id in matches && id !in unvisited ==> !matches[id].started
        invariant matches == old(matches)
        decreases unvisited
      {
        var id :| id in unvisited;
        if matches[id].started {
          return Success(MatchIdResponse(id));
        }
        unvisited := unvisited - {id};
      }

      if created.Failure? {
        return Failure(CreateError(created.error));
      }
      var matchId := created.value;
      matches := matches[matchId := CreatedEntry];
      r := Success(MatchIdResponse(matchId));
    }

    /** `MatchTerminate` only takes the table's lock: it removes nothing and hands the state back. */
    method MatchTerminate(state: MatchState, graceSeconds: int) returns (s: MatchState)
      ensures s == state
      ensures matches == old(matches)
    {
      s := state;
    }
  }
}
