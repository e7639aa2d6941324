/**
 The vote store of the epoch accumulator (crates/ade_ledger/src/epoch_accumulator.rs):
 lists of votes edited in place, one list a role on each tracked proposal.
 */
module Votes {
  import opened LedgerTypes
  import opened GovernanceCerts

  /** A decoded vote: the voter's CDDL discriminant and hash, the proposal, and the vote. */
  datatype Ballot = Ballot(voterType: nat, hash: Hash28, actionId: GovActionId, vote: Vote)

  datatype Role = Committee | DRepRole | Pool

  // A list of votes.

  /** The position of a voter's entry, or the length of the list. */
  function Position<K(==)>(votes: seq<(K, Vote)>, k: K): (i: nat)
    ensures i <= |votes|
    ensures i < |votes| ==> votes[i].0 == k
    ensures forall j :: 0 <= j < i ==> votes[j].0 != k
  {
    if votes == [] || votes[0].0 == k then 0 else 1 + Position(votes[1..], k)
  }

  /** Replace the voter's entry, or append one. */
  function Upsert<K(==)>(votes: seq<(K, Vote)>, k: K, v: Vote): seq<(K, Vote)> {
    var i := Position(votes, k);
    if i < |votes| then votes[i := (k, v)] else votes + [(k, v)]
  }

  ghost predicate OneEntryEach<K>(votes: seq<(K, Vote)>) {
    forall i, j :: 0 <= i < j < |votes| ==> votes[i].0 != votes[j].0
  }

  /** The list read as a map. */
  function Entry<K(==)>(votes: seq<(K, Vote)>, k: K): Option<Vote> {
    var i := Position(votes, k);
    if i < |votes| then Some(votes[i].1) else None
  }

  /** An upsert on a list with one entry each is a map update. */
  lemma UpsertIsUpdate<K>(votes: seq<(K, Vote)>, k: K, v: Vote, other: K)
    requires OneEntryEach(votes)
    ensures OneEntryEach(Upsert(votes, k, v))
    ensures Entry(Upsert(votes, k, v), other) == if other == k then Some(v) else Entry(votes, other)
  {
    var after := Upsert(votes, k, v);
    var i, j, j' := Position(votes, k), Position(after, other), Position(votes, other);
    if other == k {
      assert after[i] == (k, v);
    } else {
      assert forall n :: 0 <= n < |votes| && n != i ==> after[n] == votes[n];
      assert |votes| < |after| ==> after[|votes|].0 == k;
    }
  }

  // Proposals.

  /** The index of the proposal with an id, or the length of the list. */
  function Find(ps: seq<Proposal>, id: GovActionId): (i: nat)
    ensures i <= |ps|
    ensures i < |ps| ==> ps[i].actionId == id
    ensures forall j :: 0 <= j < i ==> ps[j].actionId != id
  {
    if ps == [] || ps[0].actionId == id then 0 else 1 + Find(ps[1..], id)
  }

  /** The credential a committee or DRep discriminant denotes: even is a key, odd a script. */
  function VoterCredential(voterType: nat, hash: Hash28): Credential {
    if voterType % 2 == 0 then KeyHash(hash) else ScriptHash(hash)
  }

  function Record(p: Proposal, b: Ballot): Option<Proposal> {
    match b.voterType
    case 0 => Some(p.(committeeVotes := Upsert(p.committeeVotes, VoterCredential(b.voterType, b.hash), b.vote)))
    case 1 => Some(p.(committeeVotes := Upsert(p.committeeVotes, VoterCredential(b.voterType, b.hash), b.vote)))
    case 2 => Some(p.(drepVotes := Upsert(p.drepVotes, VoterCredential(b.voterType, b.hash), b.vote)))
    case 3 => Some(p.(drepVotes := Upsert(p.drepVotes, VoterCredential(b.voterType, b.hash), b.vote)))
    case 4 => Some(p.(spoVotes := Upsert<Hash28>(p.spoVotes, b.hash, b.vote)))
    case _ => None
  }

  /** One vote: ignored on an untracked proposal, refused for an unknown voter kind on a tracked one. */
  function Cast(ps: seq<Proposal>, b: Ballot): Option<seq<Proposal>> {
    var i := Find(ps, b.actionId);
    if i == |ps| then
      Some(ps)
    else
      match Record(ps[i], b)
      case None => None
      case Some(p) => Some(ps[i := p])
  }

  function CastAll(ps: seq<Proposal>, ballots: seq<Ballot>): Option<seq<Proposal>> {
    if ballots == [] then
      Some(ps)
    else
      match CastAll(ps, ballots[..|ballots| - 1])
      case None => None
      case Some(ps') => Cast(ps', ballots[|ballots| - 1])
  }

  /** The proposals held in place. */
  class VoteStore {
    var proposals: seq<Proposal>

    constructor (initial: seq<Proposal>)
      ensures proposals == initial
    {
      proposals := initial;
    }

    method ApplyOneVote(b: Ballot) returns (ok: bool)
      modifies this
      ensures ok <==> Cast(old(proposals), b).Some?
      ensures proposals == if ok then Cast(old(proposals), b).value else old(proposals)
    {
      var i := 0;
      while i < |proposals| && proposals[i].actionId != b.actionId
        invariant 0 <= i <= |proposals| && proposals == old(proposals)
        invariant forall j :: 0 <= j < i ==> proposals[j].actionId != b.actionId
      {
        i := i + 1;
      }
      if i == |proposals| {
        return true;
      }
      assert i == Find(proposals, b.actionId);
      match Record(proposals[i], b) {
        case None => return false;
        case Some(p) =>
          proposals := proposals[i := p];
          return true;
      }
    }
  }

  // The store against a last-write-wins map.

  datatype Voter = CredentialVoter(credential: Credential) | PoolVoter(hash: Hash28)

  function RoleOf(b: Ballot): Option<Role> {
    if b.voterType <= 1 then Some(Committee)
    else if b.voterType <= 3 then Some(DRepRole)
    else if b.voterType == 4 then Some(Pool)
    else None
  }

  function VoterOf(b: Ballot): Voter {
    if b.voterType == 4 then PoolVoter(b.hash) else CredentialVoter(VoterCredential(b.voterType, b.hash))
  }

  function Recorded(p: Proposal, role: Role, voter: Voter): Option<Vote> {
    match (role, voter)
    case (Committee, CredentialVoter(c)) => Entry(p.committeeVotes, c)
    case (DRepRole, CredentialVoter(c)) => Entry(p.drepVotes, c)
    case (Pool, PoolVoter(h)) => Entry<Hash28>(p.spoVotes, h)
    case _ => None
  }

  /** The last vote a voter cast in a role on a proposal, or else what was recorded before. */
  function LastVote(
    ballots: seq<Ballot>, id: GovActionId, role: Role, voter: Voter, before: Option<Vote>): Option<Vote>
  {
    if ballots == [] then
      before
    else
      var b := ballots[|ballots| - 1];
      if b.actionId == id && RoleOf(b) == Some(role) && VoterOf(b) == voter then
        Some(b.vote)
      else
        LastVote(ballots[..|ballots| - 1], id, role, voter, before)
  }

  ghost predicate WellKept(p: Proposal) {
    OneEntryEach(p.committeeVotes) && OneEntryEach(p.drepVotes) && OneEntryEach<Hash28>(p.spoVotes)
  }

  ghost predicate DistinctIds(ps: seq<Proposal>) {
    forall i, j :: 0 <= i < j < |ps| ==> ps[i].actionId != ps[j].actionId
  }

  predicate SameButVotes(p: Proposal, q: Proposal) {
    q == p.(committeeVotes := q.committeeVotes, drepVotes := q.drepVotes, spoVotes := q.spoVotes)
  }

  lemma RecordIsUpdate(p: Proposal, b: Ballot, role: Role, voter: Voter)
    requires WellKept(p) && Record(p, b).Some?
    ensures var q := Record(p, b).value;
      && WellKept(q) && SameButVotes(p, q)
      && Recorded(q, role, voter)
         == if RoleOf(b) == Some(role) && VoterOf(b) == voter then Some(b.vote) else Recorded(p, role, voter)
  {
    hide Upsert, Entry, OneEntryEach;
    var c := VoterCredential(b.voterType, b.hash);
    var oc := if voter.CredentialVoter? then voter.credential else c;
    var oh := if voter.PoolVoter? then voter.hash else b.hash;
    if b.voterType <= 1 {
      UpsertIsUpdate(p.committeeVotes, c, b.vote, oc);
    } else if b.voterType <= 3 {
      UpsertIsUpdate(p.drepVotes, c, b.vote, oc);
    } else {
      UpsertIsUpdate<Hash28>(p.spoVotes, b.hash, b.vote, oh);
    }
  }

  /**
   After any sequence of votes over proposals with distinct ids, each voter has at
   most one entry in each role's list, the entry is its last vote in that role on that
   proposal, and nothing else about a proposal has changed.
   */
  lemma {:induction false} StoreIsLastWriteWins(
    ps: seq<Proposal>, ballots: seq<Ballot>, i: nat, role: Role, voter: Voter)
    requires DistinctIds(ps) && i < |ps| && WellKept(ps[i])
    requires CastAll(ps, ballots).Some?
    ensures var after := CastAll(ps, ballots).value;
      && |after| == |ps| && WellKept(after[i]) && SameButVotes(ps[i], after[i])
      && (forall j :: 0 <= j < |ps| ==> after[j].actionId == ps[j].actionId)
      && Recorded(after[i], role, voter)
         == LastVote(ballots, ps[i].actionId, role, voter, Recorded(ps[i], role, voter))
  {
    if ballots != [] {
      var n := |ballots| - 1;
      StoreIsLastWriteWins(ps, ballots[..n], i, role, voter);
      var before, b := CastAll(ps, ballots[..n]).value, ballots[n];
      var k := Find(before, b.actionId);
      hide Recorded, Record, WellKept, Position;
      if k < |before| {
        if k == i {
          RecordIsUpdate(before[i], b, role, voter);
        } else {
          assert before[k].actionId != before[i].actionId;
        }
        RecordKeepsId(before[k], b);
      }
    }
  }

  /** Which list a vote is recorded in and for whom, for each voter kind; other kinds are refused. */
  lemma EachKindIsRecorded(ps: seq<Proposal>, b: Ballot, i: nat)
    requires DistinctIds(ps) && i < |ps| && WellKept(ps[i]) && ps[i].actionId == b.actionId
    ensures Cast(ps, b).Some? <==> b.voterType <= 4
    ensures Cast(ps, b).Some? ==>
              var q := Cast(ps, b).value[i];
              match b.voterType
              case 0 => Entry(q.committeeVotes, KeyHash(b.hash)) == Some(b.vote)
              case 1 => Entry(q.committeeVotes, ScriptHash(b.hash)) == Some(b.vote)
              case 2 => Entry(q.drepVotes, KeyHash(b.hash)) == Some(b.vote)
              case 3 => Entry(q.drepVotes, ScriptHash(b.hash)) == Some(b.vote)
              case _ => Entry<Hash28>(q.spoVotes, b.hash) == Some(b.vote)
  {
    hide Entry, Upsert, OneEntryEach;
    assert Find(ps, b.actionId) == i;
    var key, script := KeyHash(b.hash), ScriptHash(b.hash);
    UpsertIsUpdate(ps[i].committeeVotes, key, b.vote, key);
    UpsertIsUpdate(ps[i].committeeVotes, script, b.vote, script);
    UpsertIsUpdate(ps[i].drepVotes, key, b.vote, key);
    UpsertIsUpdate(ps[i].drepVotes, script, b.vote, script);
    UpsertIsUpdate<Hash28>(ps[i].spoVotes, b.hash, b.vote, b.hash);
  }

  lemma RecordKeepsId(p: Proposal, b: Ballot)
    ensures Record(p, b).Some? ==> Record(p, b).value.actionId == p.actionId
  {
  }

  /** Votes naming no tracked proposal change nothing. */
  lemma {:induction false} UntrackedVotesIgnored(ps: seq<Proposal>, ballots: seq<Ballot>)
    requires forall i, j :: 0 <= i < |ballots| && 0 <= j < |ps| ==> ballots[i].actionId != ps[j].actionId
    ensures CastAll(ps, ballots) == Some(ps)
  {
    if ballots != [] {
      UntrackedVotesIgnored(ps, ballots[..|ballots| - 1]);
    }
  }
}
