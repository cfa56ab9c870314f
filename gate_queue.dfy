/** The pure part of the gate queue engine of ui/screens/gate/GateViewModel.kt:
    the decoded stream payloads, the message dispatch, the queue filters, the
    fold of a gate-state batch and of a player arrival, and the access
    decision for the head of the queue. The class in gate_view_model.dfy is
    proved to update its state as these functions say.

    The positions of GateState that the engine compares against are taken to
    have the wire strings of module GateStates. */
module GateQueue {
  import opened Wrappers
  import opened Players
  import GateStates

  // ----- Decoded payloads -----
  // The JSON of a stream message is decoded by repository code that is not
  // part of this model; an absent field (or, where the code maps it so, a
  // JSON null) is `None`.

  /** The `player` object of a player payload. */
  datatype PlayerFields = PlayerFields(
    firstName: Option<string>,
    secondName: Option<string>,
    lastName: Option<string>,
    lastName2: Option<string>)

  /** One element of `passphotos`; `data` is the Base64 image text. */
  datatype Photo = Photo(data: Option<string>)

  /** The payload of a `drMemberCPPlayerData` message. `kind` is the JSON
      field `type`. */
  datatype PlayerPayload = PlayerPayload(
    hasData: Option<bool>,
    kind: Option<string>,
    playerId: Option<int>,
    position: Option<string>,
    player: Option<PlayerFields>,
    passphotos: Option<seq<Photo>>,
    isBlacklisted: Option<bool>)

  /** One element of the `list` of a `drMemberCPGateArray` message. */
  datatype GateEntry = GateEntry(position: Option<string>, state: Option<string>)

  datatype BorderState = Neutral | Green | Red

  /** How a handler ends: `Aborted` when it throws, which ends the collection
      of the stream (the exception is caught around `collect`). */
  datatype Outcome = Completed | Aborted

  const PlayerDataTag: string := "drMemberCPPlayerData"
  const GateArrayTag: string := "drMemberCPGateArray"
  const GateType: string := "Gate"
  /** The id given to a player payload without a usable `playerId`. */
  const MissingPlayerId: int := -1

  // ----- Dispatch -----

  /** Kotlin's `String.contains`. */
  predicate Contains(s: string, t: string)
    decreases |s|
  {
    |t| <= |s| && (s[..|t|] == t || Contains(s[1..], t))
  }

  datatype Route = ToPlayerHandler | ToGateHandler | Dropped

  /** The `when` of `startSseStream`'s collector. `permitted` is whether the
      notification permission is granted at that moment. */
  function RouteOf(message: string, permitted: bool): Route {
    if Contains(message, PlayerDataTag) then
      if permitted then ToPlayerHandler else Dropped
    else if Contains(message, GateArrayTag) then ToGateHandler
    else Dropped
  }

  /** The player tag takes precedence over the gate tag, player handling
      needs the permission, and a player message without it is dropped rather
      than handed to gate handling. */
  lemma RouteCases(message: string, permitted: bool)
    ensures RouteOf(message, permitted) == ToPlayerHandler
        <==> Contains(message, PlayerDataTag) && permitted
    ensures RouteOf(message, permitted) == ToGateHandler
        <==> !Contains(message, PlayerDataTag) && Contains(message, GateArrayTag)
    ensures RouteOf(message, permitted) == Dropped
        <==> ((Contains(message, PlayerDataTag) && !permitted)
             || (!Contains(message, PlayerDataTag) && !Contains(message, GateArrayTag)))
  {
  }

  /** `t` occurs in `s` starting at offset `k`. */
  predicate OccursAt(s: string, t: string, k: nat) {
    k + |t| <= |s| && s[k..k + |t|] == t
  }

  /** `Contains` finds `t` at some offset of `s`. */
  lemma {:induction false} ContainsAt(s: string, t: string, k: nat)
    requires OccursAt(s, t, k)
    ensures Contains(s, t)
    decreases k
  {
    if k > 0 {
      assert s[1..][k - 1..k - 1 + |t|] == s[k..k + |t|];
      ContainsAt(s[1..], t, k - 1);
    }
  }

  /** `Contains(s, t)` holds exactly when `t` occurs in `s` at some offset,
      as Kotlin's `String.contains` promises. */
  lemma {:induction false} ContainsIff(s: string, t: string)
    ensures Contains(s, t) <==> exists k: nat :: OccursAt(s, t, k)
    decreases |s|
  {
    if exists k: nat :: OccursAt(s, t, k) {
      var k: nat :| OccursAt(s, t, k);
      ContainsAt(s, t, k);
    }
    if Contains(s, t) {
      if s[..|t|] == t {
        assert OccursAt(s, t, 0);
      } else {
        ContainsIff(s[1..], t);
        var k: nat :| OccursAt(s[1..], t, k);
        assert s[1..][k..k + |t|] == s[k + 1..k + 1 + |t|];
        assert OccursAt(s, t, k + 1);
      }
    }
  }

  /** A message carrying both tags goes to player handling when permitted. */
  lemma BothTagsGoToPlayer(message: string, k: nat, j: nat)
    requires k + |PlayerDataTag| <= |message| && message[k..k + |PlayerDataTag|] == PlayerDataTag
    requires j + |GateArrayTag| <= |message| && message[j..j + |GateArrayTag|] == GateArrayTag
    ensures RouteOf(message, true) == ToPlayerHandler
    ensures RouteOf(message, false) == Dropped
  {
    ContainsAt(message, PlayerDataTag, k);
  }

  // ----- Queue filters -----

  /** The entries of `q` whose position is not in `ps`, in their order
      (Kotlin's `filterNot`). */
  function WithoutAll(q: seq<PlayerResponse>, ps: set<string>): (r: seq<PlayerResponse>)
    ensures |r| <= |q|
    ensures forall e :: e in r <==> e in q && e.position !in ps
    decreases |q|
  {
    if q == [] then []
    else
      var rest := WithoutAll(q[1..], ps);
      if q[0].position in ps then rest else [q[0]] + rest
  }

  /** `removeByPosition`: the entries of `q` not at `position`. */
  function Without(q: seq<PlayerResponse>, position: string): seq<PlayerResponse> {
    WithoutAll(q, {position})
  }

  /** `a` is `b` with some elements left out, the rest in the same order. */
  predicate IsSubsequence<T(==)>(a: seq<T>, b: seq<T>)
    decreases |b|
  {
    if a == [] then true
    else if b == [] then false
    else if a[0] == b[0] then IsSubsequence(a[1..], b[1..])
    else IsSubsequence(a, b[1..])
  }

  /** Filtering keeps the relative order of the entries it keeps. */
  lemma {:induction false} WithoutAllKeepsOrder(q: seq<PlayerResponse>, ps: set<string>)
    ensures IsSubsequence(WithoutAll(q, ps), q)
    decreases |q|
  {
    if q != [] {
      WithoutAllKeepsOrder(q[1..], ps);
      var rest := WithoutAll(q[1..], ps);
      if q[0].position in ps {
        SubsequenceOfTail(rest, q);
      } else {
        assert ([q[0]] + rest)[1..] == rest;
      }
    }
  }

  lemma {:induction false} SubsequenceOfTail<T>(a: seq<T>, b: seq<T>)
    requires b != [] && IsSubsequence(a, b[1..])
    ensures IsSubsequence(a, b)
    decreases |b|, 0
  {
    if a != [] && a[0] == b[0] {
      // a[1..] is a subsequence of b[1..] because a is
      SubsequenceDropHead(a, b[1..]);
    }
  }

  lemma {:induction false} SubsequenceDropHead<T>(a: seq<T>, b: seq<T>)
    requires a != [] && IsSubsequence(a, b)
    ensures IsSubsequence(a[1..], b)
    decreases |b|, 1
  {
    if a[0] == b[0] {
      SubsequenceOfTail(a[1..], b);
    } else {
      SubsequenceDropHead(a, b[1..]);
      SubsequenceOfTail(a[1..], b);
    }
  }

  /** Filtering keeps every entry outside `ps` as many times as it occurs,
      and no entry at a position in `ps`. */
  lemma {:induction false} WithoutAllCounts(q: seq<PlayerResponse>, ps: set<string>, e: PlayerResponse)
    ensures multiset(WithoutAll(q, ps))[e] == if e.position in ps then 0 else multiset(q)[e]
    decreases |q|
  {
    if q != [] {
      WithoutAllCounts(q[1..], ps, e);
      assert q == [q[0]] + q[1..];
      assert multiset(q) == multiset([q[0]]) + multiset(q[1..]);
    }
  }

  /** Filtering by `a` and then by `b` is filtering by both at once. */
  lemma {:induction false} WithoutAllTwice(q: seq<PlayerResponse>, a: set<string>, b: set<string>)
    ensures WithoutAll(WithoutAll(q, a), b) == WithoutAll(q, a + b)
    decreases |q|
  {
    if q != [] {
      WithoutAllTwice(q[1..], a, b);
      var rest := WithoutAll(q[1..], a);
      if q[0].position !in a {
        assert ([q[0]] + rest)[1..] == rest;
      }
    }
  }

  /** A filter that matches no entry changes nothing. */
  lemma {:induction false} WithoutAllNoMatch(q: seq<PlayerResponse>, ps: set<string>)
    requires forall e :: e in q ==> e.position !in ps
    ensures WithoutAll(q, ps) == q
    decreases |q|
  {
    if q != [] {
      assert q[0] in q;
      forall e | e in q[1..] ensures e.position !in ps {
        assert e in q;
      }
      WithoutAllNoMatch(q[1..], ps);
    }
  }

  /** `removeByPosition` leaves no entry at `position`, keeps every other
      entry in its relative order, and removing twice is removing once. */
  lemma RemoveByPositionSpec(q: seq<PlayerResponse>, position: string)
    ensures forall e :: e in Without(q, position) ==> e.position != position
    ensures forall e: PlayerResponse :: e.position != position ==> multiset(Without(q, position))[e] == multiset(q)[e]
    ensures IsSubsequence(Without(q, position), q)
    ensures Without(Without(q, position), position) == Without(q, position)
  {
    forall e: PlayerResponse | e.position != position
      ensures multiset(Without(q, position))[e] == multiset(q)[e]
    {
      WithoutAllCounts(q, {position}, e);
    }
    WithoutAllKeepsOrder(q, {position});
    WithoutAllTwice(q, {position}, {position});
    assert {position} + {position} == {position};
  }

  // ----- The duplicate key -----

  predicate HasPlayerId(q: seq<PlayerResponse>, id: int) {
    exists e :: e in q && e.playerId == id
  }

  /** No two queue entries share a `playerId`. */
  predicate UniqueIds(q: seq<PlayerResponse>) {
    forall i, j :: 0 <= i < j < |q| ==> q[i].playerId != q[j].playerId
  }

  /** Filtering keeps the ids unique. */
  lemma {:induction false} WithoutAllKeepsUniqueIds(q: seq<PlayerResponse>, ps: set<string>)
    requires UniqueIds(q)
    ensures UniqueIds(WithoutAll(q, ps))
    decreases |q|
  {
    if q != [] {
      var rest := WithoutAll(q[1..], ps);
      assert UniqueIds(q[1..]) by {
        forall i, j | 0 <= i < j < |q[1..]| ensures q[1..][i].playerId != q[1..][j].playerId {
          assert q[1..][i] == q[i + 1] && q[1..][j] == q[j + 1];
        }
      }
      WithoutAllKeepsUniqueIds(q[1..], ps);
      if q[0].position !in ps {
        forall e | e in rest ensures e.playerId != q[0].playerId {
          var k :| 0 <= k < |q[1..]| && q[1..][k] == e;
          assert q[k + 1] == e;
        }
        var r := [q[0]] + rest;
        forall i, j | 0 <= i < j < |r| ensures r[i].playerId != r[j].playerId {
          if i == 0 { assert r[j] in rest; } else { assert r[i] == rest[i - 1] && r[j] == rest[j - 1]; }
        }
      }
    }
  }

  // ----- Player arrival -----

  /** The photo index: the second photo when there are two or more, else
      the first. */
  function PhotoIndex(count: nat): (i: nat)
    requires count > 0
    ensures i < count
    ensures i == 1 <==> count > 1
  {
    if count > 1 then 1 else 0
  }

  /** What a player payload does to the queue. */
  datatype Arrival =
    | Ignored               // no data, or not a gate arrival
    | Duplicate             // the id is already queued
    | Malformed             // the photo could not be read: the handler throws
    | Admitted(entry: PlayerResponse)

  /** The names of the `player` object, each "" when absent, and all of
      them "" when the object is absent. */
  function Names(fields: Option<PlayerFields>): (string, string, string, string) {
    match fields
    case None => ("", "", "", "")
    case Some(f) => (f.firstName.GetOr(""), f.secondName.GetOr(""), f.lastName.GetOr(""), f.lastName2.GetOr(""))
  }

  /** `handlePlayerData`'s decision on a payload, given the current queue. */
  function Arrive(q: seq<PlayerResponse>, payload: Option<PlayerPayload>): (a: Arrival)
    ensures a.Admitted? ==> !HasPlayerId(q, a.entry.playerId)
  {
    if payload.None? || payload.value.hasData != Some(true) then Ignored
    else
      var p := payload.value;
      if p.kind != Some(GateType) then Ignored
      else
        var id := p.playerId.GetOr(MissingPlayerId);
        if HasPlayerId(q, id) then Duplicate
        else if p.passphotos.None? || |p.passphotos.value| == 0 then Malformed
        else
          var photo := p.passphotos.value[PhotoIndex(|p.passphotos.value|)];
          if photo.data.None? then Malformed
          else
            var blacklisted := p.isBlacklisted == Some(true);
            var (first, second, last, last2) := Names(p.player);
            Admitted(PlayerResponse(
              p.position.GetOr(""),
              id,
              Player(first, second, last, last2, Image(photo.data.value), blacklisted)))
  }

  /** The queue after an arrival. */
  function QueueAfterArrival(q: seq<PlayerResponse>, payload: Option<PlayerPayload>): seq<PlayerResponse> {
    match Arrive(q, payload)
    case Admitted(e) => q + [e]
    case _ => q
  }

  /** The border after an arrival: red for an admitted blacklisted player. */
  function BorderAfterArrival(b: BorderState, a: Arrival): BorderState {
    if a.Admitted? && a.entry.player.isBlacklisted then Red else b
  }

  /** An arrival appends exactly one entry, at the end, when the payload has
      data, is of type "Gate", its id is not queued yet and its photo is
      readable; otherwise the queue is unchanged. */
  lemma ArrivalSpec(q: seq<PlayerResponse>, payload: Option<PlayerPayload>)
    ensures var q' := QueueAfterArrival(q, payload);
      (|q'| == |q| + 1 && q'[..|q|] == q) || q' == q
    ensures |QueueAfterArrival(q, payload)| == |q| + 1
        <==> && payload.Some? && payload.value.hasData == Some(true)
             && payload.value.kind == Some(GateType)
             && !HasPlayerId(q, payload.value.playerId.GetOr(MissingPlayerId))
             && payload.value.passphotos.Some? && |payload.value.passphotos.value| > 0
             && var photos := payload.value.passphotos.value;
                photos[if |photos| > 1 then 1 else 0].data.Some?
  {
    var q' := QueueAfterArrival(q, payload);
    if Arrive(q, payload).Admitted? {
      assert q'[..|q|] == q;
    }
  }

  /** The fields of an admitted entry: a missing or null id becomes -1, a
      missing or null position becomes "", the photo is the one at
      `PhotoIndex`, and the player is blacklisted only when the payload says
      `true`. */
  lemma AdmittedEntry(q: seq<PlayerResponse>, payload: Option<PlayerPayload>)
    requires Arrive(q, payload).Admitted?
    ensures var p, e := payload.value, Arrive(q, payload).entry;
      && e.playerId == (if p.playerId.Some? then p.playerId.value else -1)
      && e.position == (if p.position.Some? then p.position.value else "")
      && p.passphotos.Some? && |p.passphotos.value| > 0
      && Some(e.player.image.base64) == p.passphotos.value[if |p.passphotos.value| > 1 then 1 else 0].data
      && (e.player.isBlacklisted <==> p.isBlacklisted == Some(true))
  {
  }

  /** Arrivals keep the queue's ids unique. */
  lemma ArrivalKeepsUniqueIds(q: seq<PlayerResponse>, payload: Option<PlayerPayload>)
    requires UniqueIds(q)
    ensures UniqueIds(QueueAfterArrival(q, payload))
  {
    var a := Arrive(q, payload);
    if a.Admitted? {
      var r := q + [a.entry];
      forall i, j | 0 <= i < j < |r| ensures r[i].playerId != r[j].playerId {
        if j == |q| { assert r[i] in q; }
      }
    }
  }

  /** The same player arriving twice is queued once. */
  lemma DuplicateArrivalDropped(q: seq<PlayerResponse>, payload: Option<PlayerPayload>)
    requires Arrive(q, payload).Admitted?
    ensures var q1 := QueueAfterArrival(q, payload);
      QueueAfterArrival(q1, payload) == q1 && Arrive(q1, payload) == Duplicate
  {
    var e := Arrive(q, payload).entry;
    var q1 := q + [e];
    assert e in q1;
    assert payload.value.playerId.GetOr(MissingPlayerId) == e.playerId;
  }

  // ----- Gate batch -----

  function PositionOf(g: GateEntry): string { g.position.GetOr("") }
  function StateOf(g: GateEntry): string { g.state.GetOr("") }

  /** A state after which the gate's position leaves the queue. */
  predicate Resolves(state: string) {
    || state == GateStates.Value(GateStates.AccessGranted)
    || state == GateStates.Value(GateStates.AccessDenied)
    || state == GateStates.Value(GateStates.ReadyForUse)
  }

  /** The positions the batch resolves. */
  function ResolvedPositions(gs: seq<GateEntry>): set<string>
    decreases |gs|
  {
    if gs == [] then {}
    else
      var g := gs[|gs| - 1];
      ResolvedPositions(gs[..|gs| - 1]) + (if Resolves(StateOf(g)) then {PositionOf(g)} else {})
  }

  predicate AllReadyForUse(gs: seq<GateEntry>) {
    forall i :: 0 <= i < |gs| ==> StateOf(gs[i]) == GateStates.Value(GateStates.ReadyForUse)
  }

  /** The queue after a gate batch. */
  function QueueAfterBatch(q: seq<PlayerResponse>, gs: seq<GateEntry>): seq<PlayerResponse> {
    if AllReadyForUse(gs) then [] else WithoutAll(q, ResolvedPositions(gs))
  }

  /** The recorded gate states after a batch: each entry in turn writes its
      state at its position. */
  function RecordStates(m: map<string, string>, gs: seq<GateEntry>): map<string, string>
    decreases |gs|
  {
    if gs == [] then m
    else
      var g := gs[|gs| - 1];
      RecordStates(m, gs[..|gs| - 1])[PositionOf(g) := StateOf(g)]
  }

  /** A position is resolved by the batch exactly when some entry at it has
      a resolving state. */
  lemma {:induction false} ResolvedPositionsSpec(gs: seq<GateEntry>, p: string)
    ensures p in ResolvedPositions(gs)
        <==> exists i :: 0 <= i < |gs| && PositionOf(gs[i]) == p && Resolves(StateOf(gs[i]))
    decreases |gs|
  {
    if gs != [] {
      var init := gs[..|gs| - 1];
      ResolvedPositionsSpec(init, p);
      if exists i :: 0 <= i < |init| && PositionOf(init[i]) == p && Resolves(StateOf(init[i])) {
        var i :| 0 <= i < |init| && PositionOf(init[i]) == p && Resolves(StateOf(init[i]));
        assert gs[i] == init[i];
      }
      if exists i :: 0 <= i < |gs| && PositionOf(gs[i]) == p && Resolves(StateOf(gs[i])) {
        var i :| 0 <= i < |gs| && PositionOf(gs[i]) == p && Resolves(StateOf(gs[i]));
        if i < |init| { assert init[i] == gs[i]; }
      }
    }
  }

  /** After a batch each position of the batch holds the state of its last
      occurrence in the batch. */
  lemma {:induction false} RecordStatesLastWins(m: map<string, string>, gs: seq<GateEntry>, i: nat)
    requires i < |gs|
    requires forall j :: i < j < |gs| ==> PositionOf(gs[j]) != PositionOf(gs[i])
    ensures PositionOf(gs[i]) in RecordStates(m, gs)
    ensures RecordStates(m, gs)[PositionOf(gs[i])] == StateOf(gs[i])
    decreases |gs|
  {
    if i < |gs| - 1 {
      var init := gs[..|gs| - 1];
      assert init[i] == gs[i];
      forall j | i < j < |init| ensures PositionOf(init[j]) != PositionOf(init[i]) {
        assert init[j] == gs[j];
      }
      RecordStatesLastWins(m, init, i);
    }
  }

  /** Positions outside the batch keep their previous state, or stay
      unrecorded. */
  lemma {:induction false} RecordStatesElsewhere(m: map<string, string>, gs: seq<GateEntry>, p: string)
    requires forall j :: 0 <= j < |gs| ==> PositionOf(gs[j]) != p
    ensures p in RecordStates(m, gs) <==> p in m
    ensures p in m ==> RecordStates(m, gs)[p] == m[p]
    decreases |gs|
  {
    if gs != [] {
      var init := gs[..|gs| - 1];
      assert PositionOf(gs[|gs| - 1]) != p;
      forall j | 0 <= j < |init| ensures PositionOf(init[j]) != p {
        assert init[j] == gs[j];
      }
      RecordStatesElsewhere(m, init, p);
    }
  }

  /** The recorded positions are the old ones and those of the batch. */
  lemma {:induction false} RecordStatesKeys(m: map<string, string>, gs: seq<GateEntry>)
    ensures RecordStates(m, gs).Keys == m.Keys + set i | 0 <= i < |gs| :: PositionOf(gs[i])
    decreases |gs|
  {
    if gs != [] {
      var init := gs[..|gs| - 1];
      RecordStatesKeys(m, init);
      var a := set i | 0 <= i < |init| :: PositionOf(init[i]);
      var b := set i | 0 <= i < |gs| :: PositionOf(gs[i]);
      assert b == a + {PositionOf(gs[|gs| - 1])} by {
        forall x | x in b ensures x in a + {PositionOf(gs[|gs| - 1])} {
          var i :| 0 <= i < |gs| && PositionOf(gs[i]) == x;
          if i < |init| { assert init[i] == gs[i]; }
        }
        forall x | x in a ensures x in b {
          var i :| 0 <= i < |init| && PositionOf(init[i]) == x;
          assert gs[i] == init[i];
        }
      }
    }
  }

  /** Whether the batch writes position `p`: the last index at it, if any. */
  function LastAt(gs: seq<GateEntry>, p: string): (r: Option<nat>)
    ensures r.Some? ==>
      && r.value < |gs| && PositionOf(gs[r.value]) == p
      && forall j :: r.value < j < |gs| ==> PositionOf(gs[j]) != p
    ensures r.None? ==> forall j :: 0 <= j < |gs| ==> PositionOf(gs[j]) != p
    decreases |gs|
  {
    if gs == [] then None
    else if PositionOf(gs[|gs| - 1]) == p then Some(|gs| - 1)
    else
      var r := LastAt(gs[..|gs| - 1], p);
      assert r.Some? ==> gs[r.value] == gs[..|gs| - 1][r.value];
      assert r.None? ==> forall j :: 0 <= j < |gs| - 1 ==> gs[j] == gs[..|gs| - 1][j];
      r
  }

  /** Recording the same batch again changes nothing. */
  lemma RecordStatesIdempotent(m: map<string, string>, gs: seq<GateEntry>)
    ensures RecordStates(RecordStates(m, gs), gs) == RecordStates(m, gs)
  {
    var m1 := RecordStates(m, gs);
    var m2 := RecordStates(m1, gs);
    RecordStatesKeys(m, gs);
    RecordStatesKeys(m1, gs);
    forall p | p in m2 ensures p in m1 && m2[p] == m1[p] {
      match LastAt(gs, p)
      case Some(i) =>
        RecordStatesLastWins(m, gs, i);
        RecordStatesLastWins(m1, gs, i);
      case None =>
        RecordStatesElsewhere(m1, gs, p);
    }
  }

  /** A batch in which every gate is ReadyForUse, the empty batch included,
      empties the queue. */
  lemma AllReadyClears(q: seq<PlayerResponse>, gs: seq<GateEntry>)
    requires forall i :: 0 <= i < |gs| ==> gs[i].state == Some("ReadyForUse")
    ensures QueueAfterBatch(q, gs) == []
  {
  }

  /** Otherwise the batch removes exactly the entries at the positions it
      resolves. */
  lemma BatchRemovesResolved(q: seq<PlayerResponse>, gs: seq<GateEntry>)
    requires !AllReadyForUse(gs)
    ensures forall e :: e in QueueAfterBatch(q, gs) <==>
      e in q && !exists i :: 0 <= i < |gs| && PositionOf(gs[i]) == e.position && Resolves(StateOf(gs[i]))
    ensures IsSubsequence(QueueAfterBatch(q, gs), q)
  {
    forall e: PlayerResponse {
      ResolvedPositionsSpec(gs, e.position);
    }
    WithoutAllKeepsOrder(q, ResolvedPositions(gs));
  }

  /** Replaying a batch has no further effect on the queue. */
  lemma BatchIdempotent(q: seq<PlayerResponse>, gs: seq<GateEntry>)
    ensures QueueAfterBatch(QueueAfterBatch(q, gs), gs) == QueueAfterBatch(q, gs)
  {
    if !AllReadyForUse(gs) {
      var ps := ResolvedPositions(gs);
      WithoutAllTwice(q, ps, ps);
      assert ps + ps == ps;
    }
  }

  /** Gate batches keep the queue's ids unique. */
  lemma BatchKeepsUniqueIds(q: seq<PlayerResponse>, gs: seq<GateEntry>)
    requires UniqueIds(q)
    ensures UniqueIds(QueueAfterBatch(q, gs))
  {
    if !AllReadyForUse(gs) {
      WithoutAllKeepsUniqueIds(q, ResolvedPositions(gs));
    }
  }

  // ----- Access decision -----

  /** The access event sent for the head of the queue. */
  datatype AccessRequest = AccessRequest(sessionId: string, position: string, isAccessGranted: bool)

  /** What the repository call returned: a response, successful or not, or an
      exception. */
  datatype SendOutcome = Responded(isSuccessful: bool) | Threw

  const AcceptDwellMs: nat := 3000
  const DenyDwellMs: nat := 5000

  function FullName(p: Player): string {
    p.firstName + " " + p.lastName
  }

  /** The request `setStatusAccepted`/`setStatusDenied` send: none on an empty
      queue (reading `_queue.value[0]` throws before the call), otherwise the
      head's position under the current session id. */
  function HeadRequest(q: seq<PlayerResponse>, sessionId: string, granted: bool): (r: Option<AccessRequest>)
    ensures r.None? <==> q == []
    ensures r.Some? ==>
      && r.value.position == q[0].position
      && r.value.sessionId == sessionId
      && r.value.isAccessGranted == granted
  {
    if q == [] then None else Some(AccessRequest(sessionId, q[0].position, granted))
  }

  /** The feedback shown while a confirmed decision is displayed. */
  function DecisionBorder(granted: bool): (b: BorderState)
    ensures b == Green <==> granted
    ensures b == Red <==> !granted
  {
    if granted then Green else Red
  }

  function DwellMs(granted: bool): nat {
    if granted then AcceptDwellMs else DenyDwellMs
  }

  // ----- A scenario -----

  /** Player 7 arrives at A1 and is queued; AccessGranted at A1 removes them;
      the same gate batch again leaves the queue empty. A "Query" payload is
      ignored. */
  lemma GrantedScenario(photo: string)
    ensures var arrival := Some(PlayerPayload(Some(true), Some("Gate"), Some(7), Some("A1"), None,
                                              Some([Photo(Some(photo))]), None));
      var q1 := QueueAfterArrival([], arrival);
      var batch := [GateEntry(Some("A1"), Some("AccessGranted"))];
      var q2 := QueueAfterBatch(q1, batch);
      && |q1| == 1 && q1[0].playerId == 7 && q1[0].position == "A1"
      && q2 == [] && QueueAfterBatch(q2, batch) == []
      && QueueAfterArrival(q1, Some(arrival.value.(kind := Some("Query")))) == q1
  {
    var batch := [GateEntry(Some("A1"), Some("AccessGranted"))];
    assert !AllReadyForUse(batch) by {
      assert StateOf(batch[0]) == "AccessGranted";
    }
    assert "A1" in ResolvedPositions(batch) by {
      assert batch[..0] == [];
    }
  }
}
