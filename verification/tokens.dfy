/** Refresh-token families: rotation keeps each family one chain with at most one live token, its last. */
module Tokens {
  import opened Calendar
  import opened Domain

  datatype RefreshToken = RefreshToken(
    id: Id,
    userId: Id,
    hash: string,
    familyId: Id,
    expiresAt: Time,
    createdAt: Time,
    revokedAt: Option<Time>,
    replacedBy: Id)

  datatype Outcome = Done | NotFound | AlreadyExists

  /** The stored tokens and their index by hash. */
  datatype Vault = Vault(tokens: map<Id, RefreshToken>, byHash: map<string, Id>)

  predicate Live(vault: Vault, id: Id) {
    id in vault.tokens && vault.tokens[id].revokedAt == None
  }

  // ---- Operations

  function Stored(vault: Vault, token: RefreshToken): Vault {
    Vault(vault.tokens[token.id := token], vault.byHash[token.hash := token.id])
  }

  function Create(vault: Vault, token: RefreshToken): (Vault, Outcome) {
    if token.hash in vault.byHash then (vault, AlreadyExists) else (Stored(vault, token), Done)
  }

  function Rotate(vault: Vault, id: Id, replacement: RefreshToken, now: Time): (Vault, Outcome) {
    if !Live(vault, id) then (vault, NotFound)
    else if replacement.hash in vault.byHash then (vault, AlreadyExists)
    else
      var spent := vault.tokens[id].(revokedAt := Some(now), replacedBy := replacement.id);
      (Stored(vault.(tokens := vault.tokens[id := spent]), replacement.(familyId := spent.familyId)), Done)
  }

  function Revoke(vault: Vault, id: Id, now: Time): Vault {
    if Live(vault, id) then vault.(tokens := vault.tokens[id := vault.tokens[id].(revokedAt := Some(now))]) else vault
  }

  function RevokedFor(token: RefreshToken, user: Id, now: Time): RefreshToken {
    if token.userId == user && token.revokedAt == None then token.(revokedAt := Some(now)) else token
  }

  function RevokeAll(vault: Vault, user: Id, now: Time): Vault {
    vault.(tokens := map id | id in vault.tokens :: RevokedFor(vault.tokens[id], user, now))
  }

  /** The token is as it was, but for being revoked at this time. */
  predicate RevokedAtOnly(before: RefreshToken, after: RefreshToken, now: Time) {
    && after.revokedAt == Some(now)
    && (after.id, after.userId, after.hash, after.familyId, after.expiresAt, after.createdAt, after.replacedBy)
       == (before.id, before.userId, before.hash, before.familyId, before.expiresAt, before.createdAt, before.replacedBy)
  }

  /** A revoked token is not live any more, keeps its other fields, and nothing else changes. */
  lemma RevokedIsDead(vault: Vault, id: Id, now: Time)
    ensures var after := Revoke(vault, id, now);
            && !Live(after, id) && after.byHash == vault.byHash && after.tokens.Keys == vault.tokens.Keys
            && (Live(vault, id) ==> RevokedAtOnly(vault.tokens[id], after.tokens[id], now))
            && (forall other :: other in vault.tokens && (other != id || !Live(vault, id)) ==> after.tokens[other] == vault.tokens[other])
  {
  }

  /** Revoking all of a user's tokens leaves none of them live and every other token alone. */
  lemma RevokeAllReachesExactlyTheUser(vault: Vault, user: Id, now: Time)
    ensures var after := RevokeAll(vault, user, now);
            && after.byHash == vault.byHash && after.tokens.Keys == vault.tokens.Keys
            && forall id :: id in vault.tokens ==>
                 if vault.tokens[id].userId == user && Live(vault, id)
                 then RevokedAtOnly(vault.tokens[id], after.tokens[id], now) else after.tokens[id] == vault.tokens[id]
  {
  }

  /** A rotation kills the old token, links it to the new one, and makes the new one live in the old one's family. */
  lemma RotationHandsOver(vault: Vault, id: Id, replacement: RefreshToken, now: Time)
    requires replacement.revokedAt == None && replacement.id != id
    ensures var (after, outcome) := Rotate(vault, id, replacement, now);
            && (outcome == NotFound <==> !Live(vault, id))
            && (outcome == AlreadyExists <==> Live(vault, id) && replacement.hash in vault.byHash)
            && (outcome != Done ==> after == vault)
            && (outcome == Done ==>
                  && !Live(after, id) && after.tokens[id].replacedBy == replacement.id && after.tokens[id].revokedAt == Some(now)
                  && Live(after, replacement.id) && after.tokens[replacement.id].familyId == vault.tokens[id].familyId
                  && after.tokens[replacement.id].hash == replacement.hash && after.byHash[replacement.hash] == replacement.id
                  && after.tokens[replacement.id].expiresAt == replacement.expiresAt && after.tokens[replacement.id].userId == replacement.userId)
  {
  }

  /** A new token is stored as given and found by its hash; a hash already known is refused. */
  lemma CreationStores(vault: Vault, token: RefreshToken)
    ensures var (after, outcome) := Create(vault, token);
            if token.hash in vault.byHash then outcome == AlreadyExists && after == vault
            else outcome == Done && token.id in after.tokens && after.tokens[token.id] == token && after.byHash[token.hash] == token.id
                 && forall other :: other in vault.tokens && other != token.id ==> after.tokens[other] == vault.tokens[other]
  {
  }

  class IdentityRepository {
    var refreshById: map<Id, RefreshToken>
    var refreshIdByHash: map<string, Id>

    ghost function State(): Vault
      reads this
    {
      Vault(refreshById, refreshIdByHash)
    }

    constructor ()
      ensures State() == Vault(map[], map[])
    {
      refreshById, refreshIdByHash := map[], map[];
    }

    method GetRefreshTokenByHash(hash: string) returns (token: Option<RefreshToken>)
      requires Indexed(State())
      ensures token.Some? ==> token.value.hash == hash && token.value in refreshById.Values
      ensures token.None? ==> forall id :: id in refreshById ==> refreshById[id].hash != hash
    {
      if hash !in refreshIdByHash {
        return None;
      }
      return Some(refreshById[refreshIdByHash[hash]]);
    }

    method CreateRefreshToken(token: RefreshToken) returns (outcome: Outcome)
      modifies this
      ensures (State(), outcome) == Create(old(State()), token)
    {
      if token.hash in refreshIdByHash {
        return AlreadyExists;
      }
      refreshById := refreshById[token.id := token];
      refreshIdByHash := refreshIdByHash[token.hash := token.id];
      outcome := Done;
    }

    method RotateRefreshToken(oldTokenId: Id, replacement: RefreshToken, now: Time) returns (outcome: Outcome)
      modifies this
      ensures (State(), outcome) == Rotate(old(State()), oldTokenId, replacement, now)
    {
      if oldTokenId !in refreshById || refreshById[oldTokenId].revokedAt != None {
        return NotFound;
      }
      if replacement.hash in refreshIdByHash {
        return AlreadyExists;
      }
      var spent := refreshById[oldTokenId].(revokedAt := Some(now), replacedBy := replacement.id);
      refreshById := refreshById[oldTokenId := spent];
      refreshById := refreshById[replacement.id := replacement.(familyId := spent.familyId)];
      refreshIdByHash := refreshIdByHash[replacement.hash := replacement.id];
      outcome := Done;
    }

    method RevokeRefreshToken(tokenId: Id, now: Time)
      modifies this
      ensures State() == Revoke(old(State()), tokenId, now)
    {
      if tokenId !in refreshById || refreshById[tokenId].revokedAt != None {
        return;
      }
      refreshById := refreshById[tokenId := refreshById[tokenId].(revokedAt := Some(now))];
    }

    method RevokeAllRefreshTokens(user: Id, now: Time)
      modifies this
      ensures State() == RevokeAll(old(State()), user, now)
    {
      var left := refreshById.Keys;
      while left != {}
        invariant left <= refreshById.Keys == old(refreshById.Keys) && refreshIdByHash == old(refreshIdByHash)
        invariant forall id :: id in refreshById ==>
                    refreshById[id] == if id in left then old(refreshById)[id] else RevokedFor(old(refreshById)[id], user, now)
        decreases left
      {
        var id :| id in left;
        left := left - {id};
        var token := refreshById[id];
        if token.userId == user && token.revokedAt == None {
          refreshById := refreshById[id := token.(revokedAt := Some(now))];
        }
      }
    }
  }

  // ---- Chains

  /** The hash index finds every token, and only stored ones. */
  ghost predicate Indexed(vault: Vault) {
    && (forall id :: id in vault.tokens ==> vault.tokens[id].id == id && vault.tokens[id].hash in vault.byHash && vault.byHash[vault.tokens[id].hash] == id)
    && (forall hash :: hash in vault.byHash ==> vault.byHash[hash] in vault.tokens && vault.tokens[vault.byHash[hash]].hash == hash)
  }

  ghost predicate InFamily(vault: Vault, family: Id, id: Id) {
    id in vault.tokens && vault.tokens[id].familyId == family
  }

  /** All the tokens of a family, first to last: each but the last is revoked and names the next as its replacement. */
  ghost predicate IsChain(vault: Vault, family: Id, chain: seq<Id>) {
    && chain != []
    && (forall i, j :: 0 <= i < j < |chain| ==> chain[i] != chain[j])
    && (forall id :: id in chain <==> InFamily(vault, family, id))
    && (forall i :: 0 <= i < |chain| - 1 ==> Linked(vault, chain[i], chain[i + 1]))
    && Ends(vault, chain[|chain| - 1])
  }

  ghost predicate Ends(vault: Vault, id: Id) {
    id in vault.tokens && vault.tokens[id].replacedBy == ""
  }

  ghost predicate Linked(vault: Vault, id: Id, next: Id) {
    id in vault.tokens && vault.tokens[id].revokedAt.Some? && vault.tokens[id].replacedBy == next
  }

  ghost predicate HasChain(vault: Vault, family: Id) {
    exists chain :: IsChain(vault, family, chain)
  }

  ghost predicate Sound(vault: Vault) {
    && Indexed(vault)
    && "" !in vault.tokens
    && forall id :: id in vault.tokens ==> HasChain(vault, vault.tokens[id].familyId)
  }

  /** At most one token of a family is live, and it is the last of its chain. */
  lemma LiveIsLast(vault: Vault, family: Id, chain: seq<Id>, id: Id)
    requires IsChain(vault, family, chain) && InFamily(vault, family, id) && Live(vault, id)
    ensures id == chain[|chain| - 1]
  {
    var i :| 0 <= i < |chain| && chain[i] == id;
    assert i < |chain| - 1 ==> Linked(vault, chain[i], chain[i + 1]);
  }

  /** A family has one chain only: its tokens and their links determine it. */
  lemma ChainIsUnique(vault: Vault, family: Id, one: seq<Id>, two: seq<Id>)
    requires "" !in vault.tokens && IsChain(vault, family, one) && IsChain(vault, family, two)
    ensures one == two
  {
    SameFromTheEnd(vault, family, one, two, |one| - 1);
    SameFromTheEnd(vault, family, two, one, |two| - 1);
    forall k | 0 <= k < |one| ensures one[k] == two[k] {
      SameFromTheEnd(vault, family, one, two, |one| - 1 - k);
    }
  }

  lemma {:induction false} SameFromTheEnd(vault: Vault, family: Id, one: seq<Id>, two: seq<Id>, i: nat)
    requires "" !in vault.tokens && IsChain(vault, family, one) && IsChain(vault, family, two) && i < |one|
    ensures i < |two| && two[|two| - 1 - i] == one[|one| - 1 - i]
  {
    var k := |one| - 1 - i;
    var m := Place(vault, family, two, one[k]);
    if i == 0 {
      NextInChain(vault, family, one, k);
      NextInChain(vault, family, two, m);
    } else {
      SameFromTheEnd(vault, family, one, two, i - 1);
      NextInChain(vault, family, one, k);
      NextInChain(vault, family, two, m);
    }
  }

  lemma Place(vault: Vault, family: Id, chain: seq<Id>, id: Id) returns (k: int)
    requires IsChain(vault, family, chain) && InFamily(vault, family, id)
    ensures 0 <= k < |chain| && chain[k] == id
  {
    assert id in chain;
    k :| 0 <= k < |chain| && chain[k] == id;
  }

  lemma NextInChain(vault: Vault, family: Id, chain: seq<Id>, k: int)
    requires "" !in vault.tokens && IsChain(vault, family, chain) && 0 <= k < |chain|
    ensures InFamily(vault, family, chain[k])
    ensures vault.tokens[chain[k]].replacedBy == if k == |chain| - 1 then "" else chain[k + 1]
    ensures forall m :: 0 <= m < |chain| ==> chain[m] != "" && (chain[m] == chain[k] ==> m == k)
  {
    assert chain[k] in chain;
    forall m | 0 <= m < |chain| ensures chain[m] != "" {
      assert chain[m] in chain;
    }
    assert k < |chain| - 1 ==> Linked(vault, chain[k], chain[k + 1]);
  }

  // ---- Runs

  datatype Command =
    | CreateToken(token: RefreshToken)
    | RotateToken(id: Id, replacement: RefreshToken, now: Time)
    | RevokeToken(id: Id, now: Time)
    | RevokeUser(user: Id, now: Time)

  function Apply(vault: Vault, command: Command): Vault {
    match command
    case CreateToken(token) => Create(vault, token).0
    case RotateToken(id, replacement, now) => Rotate(vault, id, replacement, now).0
    case RevokeToken(id, now) => Revoke(vault, id, now)
    case RevokeUser(user, now) => RevokeAll(vault, user, now)
  }

  predicate Minted(vault: Vault, token: RefreshToken) {
    token.id != "" && token.id !in vault.tokens && token.revokedAt == None && token.replacedBy == ""
  }

  /** What the session service issues: fresh ids, a fresh family on sign-in, the same user on rotation. */
  ghost predicate Issued(vault: Vault, command: Command) {
    match command
    case CreateToken(token) => Minted(vault, token) && forall id :: id in vault.tokens ==> vault.tokens[id].familyId != token.familyId
    case RotateToken(id, replacement, now) =>
      Minted(vault, replacement) && (id in vault.tokens ==> replacement.userId == vault.tokens[id].userId)
    case RevokeToken(_, _) => true
    case RevokeUser(_, _) => true
  }

  lemma CreateKeeps(vault: Vault, token: RefreshToken)
    requires Sound(vault) && Issued(vault, CreateToken(token))
    ensures Sound(Create(vault, token).0)
  {
    hide Indexed, HasChain;
    var after := Create(vault, token).0;
    CreateKeepsIndex(vault, token);
    if token.hash !in vault.byHash {
      FirstOfItsFamily(vault, token);
      forall id | id in vault.tokens ensures HasChain(after, vault.tokens[id].familyId) {
        EarlierFamiliesKeepTheirs(vault, token, vault.tokens[id].familyId);
      }
    }
  }

  lemma CreateKeepsIndex(vault: Vault, token: RefreshToken)
    requires Indexed(vault) && Minted(vault, token)
    ensures Indexed(Create(vault, token).0)
  {
  }

  lemma FirstOfItsFamily(vault: Vault, token: RefreshToken)
    requires Issued(vault, CreateToken(token))
    ensures IsChain(Stored(vault, token), token.familyId, [token.id]) && HasChain(Stored(vault, token), token.familyId)
  {
    assert IsChain(Stored(vault, token), token.familyId, [token.id]);
  }

  lemma EarlierFamiliesKeepTheirs(vault: Vault, token: RefreshToken, family: Id)
    requires Issued(vault, CreateToken(token)) && family != token.familyId && HasChain(vault, family)
    ensures HasChain(Stored(vault, token), family)
  {
    hide IsChain;
    var chain :| IsChain(vault, family, chain);
    SameFamilySameChain(vault, Stored(vault, token), family, chain);
  }

  ghost predicate Outlives(vault: Vault, after: Vault, id: Id) {
    && id in vault.tokens && id in after.tokens
    && after.tokens[id].replacedBy == vault.tokens[id].replacedBy
    && (Live(after, id) ==> Live(vault, id))
  }

  /** A chain outlives any step that keeps its family's members and their links and never revives one. */
  lemma SameFamilySameChain(vault: Vault, after: Vault, family: Id, chain: seq<Id>)
    requires IsChain(vault, family, chain)
    requires forall id :: InFamily(after, family, id) <==> InFamily(vault, family, id)
    requires forall id :: InFamily(vault, family, id) ==> Outlives(vault, after, id)
    ensures IsChain(after, family, chain)
  {
    var last := |chain| - 1;
    assert chain[last] in chain;
    forall i | 0 <= i < last ensures Linked(after, chain[i], chain[i + 1]) {
      assert chain[i] in chain && Linked(vault, chain[i], chain[i + 1]);
    }
  }

  lemma RotateKeeps(vault: Vault, id: Id, replacement: RefreshToken, now: Time)
    requires Sound(vault) && Issued(vault, RotateToken(id, replacement, now))
    ensures Sound(Rotate(vault, id, replacement, now).0)
  {
    hide HasChain, Indexed;
    var (after, outcome) := Rotate(vault, id, replacement, now);
    RotateKeepsIndex(vault, id, replacement, now);
    if outcome == Done {
      RotationExtendsChain(vault, id, replacement, now);
      forall other | other in vault.tokens ensures HasChain(after, vault.tokens[other].familyId) {
        OtherFamiliesKeepTheirs(vault, id, replacement, now, vault.tokens[other].familyId);
      }
    }
  }

  lemma RotateKeepsIndex(vault: Vault, id: Id, replacement: RefreshToken, now: Time)
    requires Indexed(vault) && Minted(vault, replacement)
    ensures Indexed(Rotate(vault, id, replacement, now).0)
  {
  }

  lemma OtherFamiliesKeepTheirs(vault: Vault, id: Id, replacement: RefreshToken, now: Time, family: Id)
    requires Sound(vault) && Issued(vault, RotateToken(id, replacement, now)) && HasChain(vault, family)
    requires Rotate(vault, id, replacement, now).1 == Done
    ensures vault.tokens[id].familyId != family ==> HasChain(Rotate(vault, id, replacement, now).0, family)
  {
    hide IsChain, Indexed;
    if vault.tokens[id].familyId != family {
      var chain :| IsChain(vault, family, chain);
      SameFamilySameChain(vault, Rotate(vault, id, replacement, now).0, family, chain);
    }
  }

  /** A successful rotation appends the new token to the family's chain and revokes the one it replaces. */
  lemma RotationExtendsChain(vault: Vault, id: Id, replacement: RefreshToken, now: Time)
    requires Sound(vault) && Issued(vault, RotateToken(id, replacement, now))
    requires Rotate(vault, id, replacement, now).1 == Done
    ensures var after, family := Rotate(vault, id, replacement, now).0, vault.tokens[id].familyId;
            HasChain(after, family)
            && forall chain :: IsChain(vault, family, chain) ==> chain[|chain| - 1] == id && IsChain(after, family, chain + [replacement.id])
  {
    hide Indexed, Linked, Ends;
    var family := vault.tokens[id].familyId;
    forall chain | IsChain(vault, family, chain)
      ensures chain[|chain| - 1] == id && IsChain(Rotate(vault, id, replacement, now).0, family, chain + [replacement.id])
    {
      LiveTokenIsExtended(vault, id, replacement, now, chain);
    }
    var chain :| IsChain(vault, family, chain);
    assert IsChain(Rotate(vault, id, replacement, now).0, family, chain + [replacement.id]);
  }

  lemma LiveTokenIsExtended(vault: Vault, id: Id, replacement: RefreshToken, now: Time, chain: seq<Id>)
    requires Live(vault, id) && replacement.id !in vault.tokens && replacement.replacedBy == ""
    requires IsChain(vault, vault.tokens[id].familyId, chain) && Rotate(vault, id, replacement, now).1 == Done
    ensures chain[|chain| - 1] == id
    ensures IsChain(Rotate(vault, id, replacement, now).0, vault.tokens[id].familyId, chain + [replacement.id])
  {
    var after, family := Rotate(vault, id, replacement, now).0, vault.tokens[id].familyId;
    LiveIsLast(vault, family, chain, id);
    var longer := chain + [replacement.id];
    assert replacement.id !in chain;
    forall i | 0 <= i < |longer| - 1 ensures Linked(after, longer[i], longer[i + 1]) {
      assert chain[i] in chain && longer[i] == chain[i];
      if i < |chain| - 1 {
        assert Linked(vault, chain[i], chain[i + 1]) && chain[i] != id;
      }
    }
    forall other ensures other in longer <==> InFamily(after, family, other) {
      assert other in longer <==> other in chain || other == replacement.id;
    }
  }

  lemma RevokeKeeps(vault: Vault, after: Vault)
    requires Sound(vault) && after.byHash == vault.byHash && after.tokens.Keys == vault.tokens.Keys
    requires forall id :: id in vault.tokens ==>
               after.tokens[id] == vault.tokens[id] || exists at :: after.tokens[id] == vault.tokens[id].(revokedAt := Some(at))
    ensures Sound(after)
  {
    hide IsChain;
    forall id | id in after.tokens ensures HasChain(after, after.tokens[id].familyId) {
      var family := vault.tokens[id].familyId;
      var chain :| IsChain(vault, family, chain);
      SameFamilySameChain(vault, after, family, chain);
    }
  }

  lemma StepKeeps(vault: Vault, command: Command)
    requires Sound(vault) && Issued(vault, command)
    ensures Sound(Apply(vault, command))
  {
    hide Sound;
    match command
    case CreateToken(token) => CreateKeeps(vault, token);
    case RotateToken(id, replacement, now) => RotateKeeps(vault, id, replacement, now);
    case RevokeToken(id, now) => RevokeKeeps(vault, Revoke(vault, id, now));
    case RevokeUser(user, now) => RevokeKeeps(vault, RevokeAll(vault, user, now));
  }

  ghost function Run(vault: Vault, commands: seq<Command>): Vault {
    if commands == [] then vault else Apply(Run(vault, commands[..|commands| - 1]), commands[|commands| - 1])
  }

  ghost predicate IssuedRun(vault: Vault, commands: seq<Command>) {
    commands != [] ==>
      var before := commands[..|commands| - 1];
      IssuedRun(vault, before) && Issued(Run(vault, before), commands[|commands| - 1])
  }

  lemma {:induction false} RunKeeps(vault: Vault, commands: seq<Command>)
    requires Sound(vault) && IssuedRun(vault, commands)
    ensures Sound(Run(vault, commands))
    decreases |commands|
  {
    if commands != [] {
      var before := commands[..|commands| - 1];
      RunKeeps(vault, before);
      StepKeeps(Run(vault, before), commands[|commands| - 1]);
    }
  }

  /**
   In every run from an empty store each family is a single chain from its
   first token, and it has at most one live token, the last.
   */
  lemma FamiliesAreChains(commands: seq<Command>, family: Id, id: Id, other: Id)
    requires IssuedRun(Vault(map[], map[]), commands)
    requires var vault := Run(Vault(map[], map[]), commands); InFamily(vault, family, id) && InFamily(vault, family, other)
    ensures var vault := Run(Vault(map[], map[]), commands);
            && HasChain(vault, family)
            && (forall chain :: IsChain(vault, family, chain) && Live(vault, id) ==> id == chain[|chain| - 1])
            && (Live(vault, id) && Live(vault, other) ==> id == other)
  {
    RunKeeps(Vault(map[], map[]), commands);
    var vault := Run(Vault(map[], map[]), commands);
    var chain :| IsChain(vault, family, chain);
    forall chain | IsChain(vault, family, chain) && Live(vault, id) ensures id == chain[|chain| - 1] {
      LiveIsLast(vault, family, chain, id);
    }
    if Live(vault, id) && Live(vault, other) {
      LiveIsLast(vault, family, chain, id);
      LiveIsLast(vault, family, chain, other);
    }
  }

  ghost predicate HasLiveToken(vault: Vault, user: Id) {
    exists id :: Live(vault, id) && vault.tokens[id].userId == user
  }

  predicate SignsIn(command: Command, user: Id) {
    command.CreateToken? && command.token.userId == user
  }

  /** Revoking all of a user's tokens ends every session: none is live again until the user signs in anew. */
  lemma {:induction false} RevokedUserStaysOut(vault: Vault, user: Id, now: Time, later: seq<Command>)
    requires IssuedRun(RevokeAll(vault, user, now), later)
    requires forall k :: 0 <= k < |later| ==> !SignsIn(later[k], user)
    ensures !HasLiveToken(Run(RevokeAll(vault, user, now), later), user)
    ensures forall id :: Live(vault, id) && vault.tokens[id].userId != user ==> Live(RevokeAll(vault, user, now), id)
    decreases |later|
  {
    if later != [] {
      var before := later[..|later| - 1];
      assert forall k :: 0 <= k < |before| ==> before[k] == later[k];
      RevokedUserStaysOut(vault, user, now, before);
      StepRevivesNobody(Run(RevokeAll(vault, user, now), before), later[|later| - 1], user);
    }
  }

  lemma StepRevivesNobody(vault: Vault, command: Command, user: Id)
    requires Issued(vault, command) && !SignsIn(command, user) && !HasLiveToken(vault, user)
    ensures !HasLiveToken(Apply(vault, command), user)
  {
    var after := Apply(vault, command);
    forall id | Live(after, id) ensures after.tokens[id].userId != user {
      if id in vault.tokens {
        assert Live(vault, id);
      } else if command.RotateToken? {
        assert Live(vault, command.id);
      }
    }
  }

  /** A token that was rotated or revoked is never accepted again, however the run goes on. */
  lemma {:induction false} SpentStaysSpent(vault: Vault, commands: seq<Command>, id: Id, replacement: RefreshToken, now: Time)
    requires IssuedRun(vault, commands) && id in vault.tokens && !Live(vault, id)
    ensures var after := Run(vault, commands); id in after.tokens && Rotate(after, id, replacement, now) == (after, NotFound)
    decreases |commands|
  {
    if commands != [] {
      SpentStaysSpent(vault, commands[..|commands| - 1], id, replacement, now);
    }
  }
}
