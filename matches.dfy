/**
 * The like / superlike / match state machine over the `matches` table.
 *
 * A record joins two users; the first to express interest is `user1` and the
 * record is pending (`Like` or `SuperLike`) until the other party expresses
 * interest back, which promotes the same row to `Match`. The table keeps at
 * most one record per unordered pair, and `Match` is terminal.
 */
module Matches {
  import opened Wrappers
  import opened Seqs

  /** The status enum of a match record. */
  datatype Status = Like | SuperLike | Match

  datatype MatchRecord = MatchRecord(id: nat, user1: UserId, user2: UserId, status: Status)

  /** The rejections of the two handlers, with the HTTP status and message they reply with. */
  datatype MatchError = AlreadyMatched | AlreadyLiked | AlreadyLikedOrSuperLiked | PremiumOnly
  {
    function HttpStatus(): int
    {
      if PremiumOnly? then 403 else 400
    }

    function Message(): string
    {
      match this
      case AlreadyMatched => "Users are already matched"
      case AlreadyLiked => "You have already liked this profile"
      case AlreadyLikedOrSuperLiked => "You have already liked or super liked this profile"
      case PremiumOnly => "Super likes are only available for premium users"
    }
  }

  /** What a like or superlike did: inserted a pending record, promoted one, or was rejected. */
  datatype Outcome = Created(status: Status) | Matched(via: Status) | Failed(error: MatchError)
  {
    function HttpStatus(): int
    {
      match this
      case Created(_) => 201
      case Matched(_) => 200
      case Failed(e) => e.HttpStatus()
    }

    function Message(): string
    {
      match this
      case Created(s) => if s == SuperLike then "Profile super liked successfully" else "Profile liked successfully"
      case Matched(s) => if s == SuperLike then "It's a super match!" else "It's a match!"
      case Failed(e) => e.Message()
    }
  }

  /** The lookup's two `.or(...)` filters: the record mentions `a` and it mentions `b`. */
  predicate Joins(r: MatchRecord, a: UserId, b: UserId)
  {
    (r.user1 == a || r.user2 == a) && (r.user1 == b || r.user2 == b)
  }

  function JoinsPair(a: UserId, b: UserId): MatchRecord -> bool
  {
    r => Joins(r, a, b)
  }

  /** Two records link the same unordered pair of users. */
  predicate SamePair(r: MatchRecord, q: MatchRecord)
  {
    (r.user1 == q.user1 && r.user2 == q.user2) || (r.user1 == q.user2 && r.user2 == q.user1)
  }

  /**
   * The table's invariant: nobody is paired with themselves, at most one
   * record per unordered pair, and ids are distinct and below the next id.
   */
  ghost predicate TableInvariant(s: seq<MatchRecord>, nextId: nat)
  {
    && PairsUnique(s)
    && (forall i :: 0 <= i < |s| ==> s[i].user1 != s[i].user2 && s[i].id < nextId)
    && (forall i, j :: 0 <= i < j < |s| ==> s[i].id != s[j].id)
  }

  /** At most one record per unordered pair of users. */
  ghost predicate PairsUnique(s: seq<MatchRecord>)
  {
    forall i, j :: 0 <= i < j < |s| ==> !SamePair(s[i], s[j])
  }

  /** The `select ... .single()` that looks for the record joining actor and target. */
  function Lookup(s: seq<MatchRecord>, a: UserId, b: UserId): Option<MatchRecord>
  {
    Single(Filter(s, JoinsPair(a, b)))
  }

  /** `update({status}).eq('id', id)`: every row with that id gets the new status. */
  function SetStatusById(s: seq<MatchRecord>, id: nat, status: Status): seq<MatchRecord>
  {
    seq(|s|, i requires 0 <= i < |s| => if s[i].id == id then s[i].(status := status) else s[i])
  }

  /**
   * The decision both handlers share, after any subscription check: the
   * outcome and the table afterwards. `strength` is the status a new record
   * gets; `nextId` is the id the database would give it.
   */
  function Express(s: seq<MatchRecord>, nextId: nat, actor: UserId, target: UserId, strength: Status)
    : (seq<MatchRecord>, Outcome)
    requires strength != Match
  {
    match Lookup(s, actor, target)
    case None => (s + [MatchRecord(nextId, actor, target, strength)], Created(strength))
    case Some(r) =>
      if r.status == Match then (s, Failed(AlreadyMatched))
      else if r.user1 == actor then
        (s, Failed(if strength == SuperLike then AlreadyLikedOrSuperLiked else AlreadyLiked))
      else (SetStatusById(s, r.id, Match), Matched(strength))
  }

  /** A superlike needs a subscription row whose tier is not `free`. */
  predicate Premium(tiers: map<UserId, string>, u: UserId)
  {
    u in tiers && tiers[u] != "free"
  }

  /** The superlike handler: the subscription check comes before any lookup. */
  function SuperLikeStep(tiers: map<UserId, string>, s: seq<MatchRecord>, nextId: nat, actor: UserId, target: UserId)
    : (seq<MatchRecord>, Outcome)
  {
    if !Premium(tiers, actor) then (s, Failed(PremiumOnly))
    else Express(s, nextId, actor, target, SuperLike)
  }

  /** The next id after an operation: only an insert consumes one. */
  function NextIdAfter(o: Outcome, nextId: nat): nat
  {
    if o.Created? then nextId + 1 else nextId
  }

  /** `getMatches`: the records with status `match` in which the user is either party. */
  function MatchesOf(s: seq<MatchRecord>, u: UserId): (r: seq<MatchRecord>)
    ensures forall x :: x in r <==> x in s && x.status == Match && (x.user1 == u || x.user2 == u)
    ensures forall x :: multiset(r)[x] == if x.status == Match && (x.user1 == u || x.user2 == u) then multiset(s)[x] else 0
  {
    var p := (x: MatchRecord) => x.status == Match && (x.user1 == u || x.user2 == u);
    forall x ensures multiset(Filter(s, p))[x] == if p(x) then multiset(s)[x] else 0 {
      FilterMultiset(s, p, x);
    }
    FilterMembers(s, p);
    Filter(s, p)
  }

  // ---------------------------------------------------------------------
  // Properties of the decision
  // ---------------------------------------------------------------------

  /** Under the invariant, the lookup finds a record exactly when one joins the two users. */
  lemma LookupFinds(s: seq<MatchRecord>, a: UserId, b: UserId, k: nat)
    requires PairsUnique(s) && a != b
    requires k < |s| && Joins(s[k], a, b)
    ensures Lookup(s, a, b) == Some(s[k])
  {
    var p := JoinsPair(a, b);
    forall i, j | 0 <= i < j < |s| && p(s[i]) ensures !p(s[j]) {
      assert !SamePair(s[i], s[j]);
    }
    FilterSingleton(s, p, k);
  }

  lemma LookupMisses(s: seq<MatchRecord>, a: UserId, b: UserId)
    requires forall i :: 0 <= i < |s| ==> !Joins(s[i], a, b)
    ensures Lookup(s, a, b) == None
  {
    FilterEmpty(s, JoinsPair(a, b));
  }

  /** With no record joining the two users, the actor's record is appended as pending and nothing else changes. */
  lemma NoRecordCreates(s: seq<MatchRecord>, n: nat, a: UserId, t: UserId, strength: Status)
    requires strength != Match
    requires forall i :: 0 <= i < |s| ==> !Joins(s[i], a, t)
    ensures Express(s, n, a, t, strength) == (s + [MatchRecord(n, a, t, strength)], Created(strength))
  {
    LookupMisses(s, a, t);
  }

  /** Once the pair is matched, any like or superlike between them is rejected and the table is unchanged. */
  lemma MatchedRejects(s: seq<MatchRecord>, n: nat, a: UserId, t: UserId, strength: Status, k: nat)
    requires PairsUnique(s) && a != t && strength != Match
    requires k < |s| && Joins(s[k], a, t) && s[k].status == Match
    ensures Express(s, n, a, t, strength) == (s, Failed(AlreadyMatched))
  {
    LookupFinds(s, a, t, k);
  }

  /** The originator of a pending record cannot like or superlike again; the table is unchanged. */
  lemma RepeatRejects(s: seq<MatchRecord>, n: nat, a: UserId, t: UserId, strength: Status, k: nat)
    requires TableInvariant(s, n) && a != t && strength != Match
    requires k < |s| && s[k].user1 == a && s[k].user2 == t && s[k].status != Match
    ensures Express(s, n, a, t, strength)
         == (s, Failed(if strength == SuperLike then AlreadyLikedOrSuperLiked else AlreadyLiked))
  {
    LookupFinds(s, a, t, k);
  }

  /**
   * Interest back at the originator of a pending record promotes that record
   * to `match` in place: its id and users stay, every other record stays.
   */
  lemma ReciprocalPromotes(s: seq<MatchRecord>, n: nat, a: UserId, t: UserId, strength: Status, k: nat)
    requires TableInvariant(s, n) && a != t && strength != Match
    requires k < |s| && s[k].user1 == t && s[k].user2 == a && s[k].status != Match
    ensures Express(s, n, a, t, strength) == (s[k := s[k].(status := Match)], Matched(strength))
  {
    LookupFinds(s, a, t, k);
    var r := SetStatusById(s, s[k].id, Match);
    assert r == s[k := s[k].(status := Match)] by {
      forall i | 0 <= i < |s| ensures r[i] == s[k := s[k].(status := Match)][i] {
        if i < k { assert s[i].id != s[k].id; }
        if k < i { assert s[k].id != s[i].id; }
      }
    }
  }

  lemma AppendPreservesInvariant(s: seq<MatchRecord>, n: nat, a: UserId, t: UserId, strength: Status)
    requires TableInvariant(s, n) && a != t
    requires forall i :: 0 <= i < |s| ==> !Joins(s[i], a, t)
    ensures TableInvariant(s + [MatchRecord(n, a, t, strength)], n + 1)
  {
    var s' := s + [MatchRecord(n, a, t, strength)];
    forall i, j | 0 <= i < j < |s'| ensures !SamePair(s'[i], s'[j]) && s'[i].id != s'[j].id {
      if j == |s| {
        assert !Joins(s[i], a, t);
      } else {
        assert s'[i] == s[i] && s'[j] == s[j];
      }
    }
  }

  lemma PromotePreservesInvariant(s: seq<MatchRecord>, n: nat, k: nat)
    requires TableInvariant(s, n) && k < |s|
    ensures TableInvariant(s[k := s[k].(status := Match)], n)
  {
    var s' := s[k := s[k].(status := Match)];
    forall i, j | 0 <= i < j < |s'| ensures !SamePair(s'[i], s'[j]) && s'[i].id != s'[j].id {
      assert !SamePair(s[i], s[j]) && s[i].id != s[j].id;
    }
  }

  /** Every like and superlike keeps the table's invariant. */
  lemma ExpressPreservesInvariant(s: seq<MatchRecord>, n: nat, a: UserId, t: UserId, strength: Status)
    requires TableInvariant(s, n) && a != t && strength != Match
    ensures TableInvariant(Express(s, n, a, t, strength).0, NextIdAfter(Express(s, n, a, t, strength).1, n))
  {
    if forall i :: 0 <= i < |s| ==> !Joins(s[i], a, t) {
      NoRecordCreates(s, n, a, t, strength);
      AppendPreservesInvariant(s, n, a, t, strength);
    } else {
      var k :| 0 <= k < |s| && Joins(s[k], a, t);
      if s[k].status == Match {
        MatchedRejects(s, n, a, t, strength, k);
      } else if s[k].user1 == a {
        RepeatRejects(s, n, a, t, strength, k);
      } else {
        ReciprocalPromotes(s, n, a, t, strength, k);
        PromotePreservesInvariant(s, n, k);
      }
    }
  }

  /**
   * No like or superlike removes a record, moves it, or changes its id or
   * users; a status changes only to `match`, and a `match` record keeps it.
   */
  lemma MatchIsTerminal(s: seq<MatchRecord>, n: nat, a: UserId, t: UserId, strength: Status)
    requires TableInvariant(s, n) && a != t && strength != Match
    ensures var s' := Express(s, n, a, t, strength).0;
      && |s| <= |s'| <= |s| + 1
      && forall k :: 0 <= k < |s| ==>
           && s'[k].id == s[k].id && s'[k].user1 == s[k].user1 && s'[k].user2 == s[k].user2
           && (s'[k].status == s[k].status || s'[k].status == Match)
           && (s[k].status == Match ==> s'[k] == s[k])
  {
    if forall i :: 0 <= i < |s| ==> !Joins(s[i], a, t) {
      NoRecordCreates(s, n, a, t, strength);
    } else {
      var k :| 0 <= k < |s| && Joins(s[k], a, t);
      if s[k].status == Match {
        MatchedRejects(s, n, a, t, strength, k);
      } else if s[k].user1 == a {
        RepeatRejects(s, n, a, t, strength, k);
      } else {
        ReciprocalPromotes(s, n, a, t, strength, k);
      }
    }
  }

  /**
   * A likes B, then B likes or superlikes A: the first call appends a pending
   * record, the second promotes that same record, so the pair ends with one
   * record and it is a match.
   */
  lemma LikeThenLikeBack(s: seq<MatchRecord>, n: nat, a: UserId, b: UserId, first: Status, second: Status)
    requires TableInvariant(s, n) && a != b && first != Match && second != Match
    requires forall i :: 0 <= i < |s| ==> !Joins(s[i], a, b)
    ensures Express(s, n, a, b, first) == (s + [MatchRecord(n, a, b, first)], Created(first))
    ensures Express(s + [MatchRecord(n, a, b, first)], n + 1, b, a, second)
         == (s + [MatchRecord(n, a, b, Match)], Matched(second))
    ensures TableInvariant(s + [MatchRecord(n, a, b, Match)], n + 1)
  {
    NoRecordCreates(s, n, a, b, first);
    AppendPreservesInvariant(s, n, a, b, first);
    var s1 := s + [MatchRecord(n, a, b, first)];
    ReciprocalPromotes(s1, n + 1, b, a, second, |s|);
    ReplaceLast(s, MatchRecord(n, a, b, first), MatchRecord(n, a, b, Match));
    PromotePreservesInvariant(s1, n + 1, |s|);
  }

  /**
   * Once the pair's record is a match: it is the only record joining the
   * two, `getMatches` of either lists it exactly once among records with the
   * other, and every further like or superlike between them, in either
   * direction, is rejected as already matched.
   */
  lemma {:induction false} MatchedPairSettled(s: seq<MatchRecord>, a: UserId, b: UserId, k: nat)
    requires PairsUnique(s) && a != b
    requires k < |s| && Joins(s[k], a, b) && s[k].status == Match
    ensures Filter(s, JoinsPair(a, b)) == [s[k]]
    ensures Filter(MatchesOf(s, a), JoinsPair(a, b)) == [s[k]]
    ensures Filter(MatchesOf(s, b), JoinsPair(a, b)) == [s[k]]
    ensures forall st, id: nat :: st != Match ==>
      Express(s, id, a, b, st).1 == Failed(AlreadyMatched) && Express(s, id, b, a, st).1 == Failed(AlreadyMatched)
  {
    forall i | 0 <= i < |s| && i != k ensures !JoinsPair(a, b)(s[i]) {
      if i < k { assert !SamePair(s[i], s[k]); } else { assert !SamePair(s[k], s[i]); }
    }
    LookupFinds(s, a, b, k);
    FilterSingleton(s, JoinsPair(a, b), k);
    FilterFilterUnique(s, (x: MatchRecord) => x.status == Match && (x.user1 == a || x.user2 == a), JoinsPair(a, b), k);
    FilterFilterUnique(s, (x: MatchRecord) => x.status == Match && (x.user1 == b || x.user2 == b), JoinsPair(a, b), k);
    forall st, id: nat | st != Match
      ensures Express(s, id, a, b, st).1 == Failed(AlreadyMatched)
      ensures Express(s, id, b, a, st).1 == Failed(AlreadyMatched)
    {
      MatchedRejects(s, id, a, b, st, k);
      MatchedRejects(s, id, b, a, st, k);
    }
  }

  /** A likes B twice in a row: the second call is a duplicate and leaves the table as the first left it. */
  lemma RepeatedLikeIsDuplicate(s: seq<MatchRecord>, n: nat, a: UserId, b: UserId, first: Status, second: Status)
    requires TableInvariant(s, n) && a != b && first != Match && second != Match
    requires forall i :: 0 <= i < |s| ==> !Joins(s[i], a, b)
    ensures var (s1, _) := Express(s, n, a, b, first);
      Express(s1, n + 1, a, b, second)
        == (s1, Failed(if second == SuperLike then AlreadyLikedOrSuperLiked else AlreadyLiked))
  {
    NoRecordCreates(s, n, a, b, first);
    ExpressPreservesInvariant(s, n, a, b, first);
    RepeatRejects(s + [MatchRecord(n, a, b, first)], n + 1, a, b, second, |s|);
  }

  /** A superlike from a user without a paid tier is refused with 403 before the table is consulted. */
  lemma NonPremiumSuperLikeRefused(tiers: map<UserId, string>, s: seq<MatchRecord>, n: nat, a: UserId, t: UserId)
    requires a !in tiers || tiers[a] == "free"
    ensures SuperLikeStep(tiers, s, n, a, t) == (s, Failed(PremiumOnly))
    ensures SuperLikeStep(tiers, s, n, a, t).1.HttpStatus() == 403
  {
  }

  // ---------------------------------------------------------------------
  // The table
  // ---------------------------------------------------------------------

  /** The `matches` table and the `subscriptions` tiers the superlike handler reads. */
  class MatchTable {
    var records: seq<MatchRecord>
    var nextId: nat
    var tiers: map<UserId, string>

    ghost predicate Valid()
      reads this
    {
      TableInvariant(records, nextId)
    }

    constructor (subscriptions: map<UserId, string>)
      ensures Valid() && records == [] && tiers == subscriptions
    {
      records := [];
      nextId := 0;
      tiers := subscriptions;
    }

    /** `likeProfile`: the actor likes the target. */
    method LikeProfile(actor: UserId, target: UserId) returns (outcome: Outcome)
      requires Valid() && actor != target
      modifies this
      ensures Valid() && tiers == old(tiers)
      ensures (records, outcome) == Express(old(records), old(nextId), actor, target, Like)
      ensures nextId == NextIdAfter(outcome, old(nextId))
    {
      outcome := RecordInterest(actor, target, Like);
    }

    /** `superLikeProfile`: the subscription check, then the same decision as a like. */
    method SuperLikeProfile(actor: UserId, target: UserId) returns (outcome: Outcome)
      requires Valid() && actor != target
      modifies this
      ensures Valid() && tiers == old(tiers)
      ensures (records, outcome) == SuperLikeStep(old(tiers), old(records), old(nextId), actor, target)
      ensures nextId == NextIdAfter(outcome, old(nextId))
    {
      if actor !in tiers || tiers[actor] == "free" {
        return Failed(PremiumOnly);
      }
      outcome := RecordInterest(actor, target, SuperLike);
    }

    /** The lookup and the guard branches both handlers run. */
    method RecordInterest(actor: UserId, target: UserId, strength: Status) returns (outcome: Outcome)
      requires Valid() && actor != target && strength != Match
      modifies this
      ensures Valid() && tiers == old(tiers)
      ensures (records, outcome) == Express(old(records), old(nextId), actor, target, strength)
      ensures nextId == NextIdAfter(outcome, old(nextId))
    {
      ExpressPreservesInvariant(records, nextId, actor, target, strength);
      var existing := Lookup(records, actor, target);
      match existing
      case None =>
        records := records + [MatchRecord(nextId, actor, target, strength)];
        nextId := nextId + 1;
        outcome := Created(strength);
      case Some(r) =>
        if r.status == Match {
          outcome := Failed(AlreadyMatched);
        } else if r.user1 == actor {
          outcome := Failed(if strength == SuperLike then AlreadyLikedOrSuperLiked else AlreadyLiked);
        } else {
          records := SetStatusById(records, r.id, Match);
          outcome := Matched(strength);
        }
    }

  }
}
