/** Credentials made from one another: tokens, authorization codes and sessions
    as links of a chain (src/services/admin.rs, src/api/access.rs, src/api/oauth.rs,
    src/services/credentials.rs, src/auth/authentication.rs,
    src/storage/database/sessions.rs). */
module Authority {
  import opened Decimal
  import opened Text

  const I64_MAX: int := 0x7FFF_FFFF_FFFF_FFFF
  const CODE_TTL: int := 600_000

  datatype Level = Read | Write | Admin

  /** An empty list is the account's whole authority. */
  predicate GrantedBy(level: Level, scopes: seq<string>) {
    || scopes == []
    || (match level
        case Read => true
        case Write => "write" in scopes || "admin" in scopes
        case Admin => "admin" in scopes)
  }

  function TrimAll(scopes: seq<string>): (trimmed: seq<string>) {
    seq(|scopes|, i requires 0 <= i < |scopes| => Trim(scopes[i]))
  }

  /** Each scope is weighed alone against what the caller is granted. */
  predicate BoundByCaller(actor: seq<string>, requested: seq<string>) {
    || actor == []
    || (&& requested != []
        && forall scope, level | scope in TrimAll(requested) && GrantedBy(level, [scope]) :: GrantedBy(level, actor))
  }

  lemma TrimmedIsNamed(scopes: seq<string>)
    ensures [] in TrimAll(scopes) <==> !forall i | 0 <= i < |scopes| :: Trim(scopes[i]) != []
  {
    if [] in TrimAll(scopes) {
      var i :| 0 <= i < |scopes| && TrimAll(scopes)[i] == [];
    } else {
      forall i | 0 <= i < |scopes| ensures Trim(scopes[i]) != [] {
        assert TrimAll(scopes)[i] in TrimAll(scopes);
      }
    }
  }

  /** The child is granted no level the parent's scopes refuse. */
  predicate Within(child: seq<string>, parent: seq<string>) {
    forall level :: GrantedBy(level, child) ==> GrantedBy(level, parent)
  }

  /** Weighing scopes one at a time bounds the whole list, and refuses nothing
      else but an unrestricted credential asked of a restricted one. */
  lemma {:induction false} OneAtATimeBoundsTheList(actor: seq<string>, requested: seq<string>)
    ensures BoundByCaller(actor, requested) <==> (actor == [] || requested != []) && Within(TrimAll(requested), actor)
  {
    var wanted := TrimAll(requested);
    if BoundByCaller(actor, requested) && actor != [] {
      forall level | GrantedBy(level, wanted) ensures GrantedBy(level, actor) {
        var scope := if level.Admin? then "admin" else if "write" in wanted then "write" else if level.Write? then "admin" else wanted[0];
        assert scope in wanted && GrantedBy(level, [scope]);
      }
    }
    if requested != [] && Within(wanted, actor) {
      forall scope, level | scope in wanted && GrantedBy(level, [scope]) ensures GrantedBy(level, actor) {
        assert GrantedBy(level, wanted);
      }
    }
  }

  /** The table of levels, rule by rule: no list is every level, one scope grants
      what it names and what that implies, and a list grants what its parts do. */
  lemma {:induction false} GrantsAreATable(level: Level, scope: string, a: seq<string>, b: seq<string>)
    requires a != [] && b != []
    ensures GrantedBy(level, [])
    ensures GrantedBy(Read, [scope])
    ensures GrantedBy(Write, [scope]) <==> scope == "write" || scope == "admin"
    ensures GrantedBy(Admin, [scope]) <==> scope == "admin"
    ensures GrantedBy(level, a + b) <==> GrantedBy(level, a) || GrantedBy(level, b)
  {
  }

  // ---- credentials and where they come from ----

  datatype Credential =
    | Session(user: nat, scopes: seq<string>, access: nat, refresh: nat, accessUntil: int, refreshUntil: int, revoked: bool)
    | Token(user: nat, scopes: seq<string>, secret: nat, expires: Option<int>, revoked: bool)

  /** What a client asks to be paired with, and the code that records it. */
  datatype Request = Request(client: string, redirect: string, hashing: string, challenge: string, device: string)
  datatype Grant = Grant(
    user: nat, client: string, redirect: string, challenge: string, device: string,
    scopes: seq<string>, until: int, redeemed: bool)

  /** How a credential came about, and from which one. */
  datatype Link = Login | Own(minter: nat) | Provisioned(minter: nat) | Redeemed(minter: nat)

  function Deadline(c: Credential): (until: Option<int>) {
    match c
    case Session(_, _, _, _, _, _, _) => None
    case Token(_, _, _, expires, _) => expires
  }

  /** No deadline is the latest one. */
  predicate NoLater(child: Option<int>, parent: Option<int>) {
    parent.Some? ==> child.Some? && child.value <= parent.value
  }

  predicate LinkHolds(rows: seq<Credential>, i: nat, link: Link)
    requires i < |rows|
  {
    match link
    case Login => rows[i].scopes == []
    case Own(minter) => minter < i && Within(rows[i].scopes, rows[minter].scopes) && rows[i].user == rows[minter].user && NoLater(Deadline(rows[i]), Deadline(rows[minter]))
    case Provisioned(minter) => minter < i && Within(rows[i].scopes, rows[minter].scopes)
    case Redeemed(minter) => minter < i && rows[i].scopes == rows[minter].scopes && rows[i].user == rows[minter].user
  }

  predicate Sound(rows: seq<Credential>, links: seq<Link>) {
    |links| == |rows| && forall i: nat | i < |rows| :: LinkHolds(rows, i, links[i])
  }

  predicate GrantsHold(rows: seq<Credential>, grants: seq<Grant>, issuers: seq<nat>) {
    && |issuers| == |grants|
    && forall g: nat | g < |grants| ::
         && issuers[g] < |rows|
         && grants[g].scopes == rows[issuers[g]].scopes && grants[g].user == rows[issuers[g]].user
         && grants[g].device == Trim(grants[g].device) && ValidDevice(grants[g].device)
  }

  /** A device's name, counted in bytes once trimmed. */
  predicate ValidDevice(name: string) {
    0 < Utf8Length(Trim(name)) <= 120
  }

  function Parent(link: Link): (minter: Option<nat>) {
    match link
    case Login => None
    case Own(minter) => Some(minter)
    case Provisioned(minter) => Some(minter)
    case Redeemed(minter) => Some(minter)
  }

  /** `i` comes from `from` through any number of links. */
  predicate Descends(links: seq<Link>, i: nat, from: nat)
    decreases i
  {
    i == from || (i < |links| && Parent(links[i]).Some? && Parent(links[i]).value < i && Descends(links, Parent(links[i]).value, from))
  }

  /** The same, through tokens each minted by the one before for its own account. */
  predicate SelfMinted(links: seq<Link>, i: nat, from: nat)
    decreases i
  {
    i == from || (i < |links| && links[i].Own? && links[i].minter < i && SelfMinted(links, links[i].minter, from))
  }

  /** Along every chain of tokens, codes and sessions, no credential is granted a
      level the scopes of any of its ancestors refuse. */
  lemma {:induction false} ChainsNeverWiden(rows: seq<Credential>, links: seq<Link>, i: nat, from: nat)
    requires Sound(rows, links) && i < |rows| && Descends(links, i, from)
    ensures from < |rows| && Within(rows[i].scopes, rows[from].scopes)
    decreases i
  {
    if i != from {
      var above := Parent(links[i]).value;
      assert LinkHolds(rows, i, links[i]);
      ChainsNeverWiden(rows, links, above, from);
    }
  }

  /** Along every self-minted chain, no deadline is later than an ancestor's. */
  lemma {:induction false} SelfMintedNeverOutlives(rows: seq<Credential>, links: seq<Link>, i: nat, from: nat)
    requires Sound(rows, links) && i < |rows| && SelfMinted(links, i, from)
    ensures from < |rows| && NoLater(Deadline(rows[i]), Deadline(rows[from])) && rows[i].user == rows[from].user
    decreases i
  {
    if i != from {
      assert LinkHolds(rows, i, links[i]);
      SelfMintedNeverOutlives(rows, links, links[i].minter, from);
    }
  }

  lemma {:induction false} SoundAfter(rows: seq<Credential>, links: seq<Link>, c: Credential, link: Link)
    requires Sound(rows, links) && LinkHolds(rows + [c], |rows|, link)
    ensures Sound(rows + [c], links + [link])
  {
    forall i: nat | i < |rows| + 1 ensures LinkHolds(rows + [c], i, (links + [link])[i]) {
      if i < |rows| {
        assert LinkHolds(rows, i, links[i]);
      }
    }
  }

  /** Changing what a link does not look at leaves every link as it was. */
  lemma {:induction false} SoundOnceUpdated(rows: seq<Credential>, links: seq<Link>, i: nat, c: Credential)
    requires Sound(rows, links) && i < |rows|
    requires c.scopes == rows[i].scopes && c.user == rows[i].user && Deadline(c) == Deadline(rows[i])
    ensures Sound(rows[i := c], links)
  {
    forall k: nat | k < |rows| ensures LinkHolds(rows[i := c], k, links[k]) {
      assert LinkHolds(rows, k, links[k]);
    }
  }

  function SaturatingAdd(a: int, b: int): (r: int) {
    if a + b > I64_MAX then I64_MAX else a + b
  }

  /** The policy's deadline and the caller's, whichever is sooner. */
  function Sooner(policy: Option<int>, caller: Option<int>): (until: Option<int>) {
    if policy.None? then caller
    else if caller.None? then policy
    else Some(if policy.value < caller.value then policy.value else caller.value)
  }

  /** One credential more, at the end. */
  predicate Extends(before: seq<Credential>, after: seq<Credential>, row: nat) {
    row == |before| && |after| == row + 1 && after[..row] == before
  }

  datatype Account = Account(admin: bool, disabled: bool)
  datatype Outcome = Unauthorized | Forbidden | NotFound | Invalid | Issued(row: nat)

  predicate ValidName(name: string) {
    0 < |Trim(name)| <= 120
  }

  /** A bearer's row: live, not expired, of an account that is not disabled. */
  predicate Answers(c: Credential, secret: nat, now: int, accounts: map<nat, Account>) {
    && c.user in accounts && !accounts[c.user].disabled && !c.revoked
    && match c
       case Session(_, _, access, _, until, _, _) => access == secret && until > now
       case Token(_, _, s, expires, _) => s == secret && (expires.Some? ==> expires.value > now)
  }

  /** A session its refresh secret still renews. */
  predicate Renewable(c: Credential, refresh: nat, now: int, accounts: map<nat, Account>) {
    && c.Session? && c.refresh == refresh && !c.revoked && c.refreshUntil > now
    && c.user in accounts && !accounts[c.user].disabled
  }

  /** The account's role and the credential's scopes both admit the level. */
  predicate Admits(c: Credential, level: Level, accounts: map<nat, Account>) {
    (level.Admin? ==> c.user in accounts && accounts[c.user].admin) && GrantedBy(level, c.scopes)
  }

  /** The credential a bearer names: by a session's access secret or a token's own. */
  predicate Bears(c: Credential, secret: nat) {
    if c.Session? then c.access == secret else c.secret == secret
  }

  /** What becomes of a bearer: nobody when its credential is revoked or past its
      time, or its account gone or disabled; then the level is asked of both. */
  function JudgedAs(c: Credential, i: nat, level: Level, now: int, accounts: map<nat, Account>): (r: Outcome) {
    var over := if c.Session? then c.accessUntil <= now else c.expires.Some? && c.expires.value <= now;
    if c.revoked || over || c.user !in accounts || accounts[c.user].disabled then Unauthorized
    else if level == Admin && !accounts[c.user].admin then Forbidden
    else if GrantedBy(level, c.scopes) then Issued(i)
    else Forbidden
  }

  function SecretsOf(c: Credential): (secrets: set<nat>) {
    match c
    case Session(_, _, access, refresh, _, _, _) => {access, refresh}
    case Token(_, _, secret, _, _) => {secret}
  }

  /** No secret is in two rows, and none is one still to be drawn. */
  predicate Distinct(rows: seq<Credential>, next: nat) {
    && (forall i: nat, x | i < |rows| && x in SecretsOf(rows[i]) :: x < next)
    && (forall i: nat, j: nat, x | i < |rows| && j < |rows| && x in SecretsOf(rows[i]) && x in SecretsOf(rows[j]) :: i == j)
  }

  /** None of these secrets is any row's. */
  predicate Spent(gone: set<nat>, rows: seq<Credential>) {
    forall k: nat | k < |rows| :: gone !! SecretsOf(rows[k])
  }

  lemma {:induction false} AnswersOnce(rows: seq<Credential>, next: nat, i: nat, j: nat, x: nat)
    requires Distinct(rows, next) && i < |rows| && j < |rows| && x in SecretsOf(rows[i]) && x in SecretsOf(rows[j])
    ensures i == j
  {
  }

  lemma {:induction false} DistinctAfter(rows: seq<Credential>, next: nat, c: Credential, later: nat)
    requires Distinct(rows, next) && next <= later && forall x | x in SecretsOf(c) :: next <= x < later
    ensures Distinct(rows + [c], later)
  {
  }

  lemma {:induction false} DistinctOnceRotated(rows: seq<Credential>, next: nat, i: nat, c: Credential, later: nat)
    requires Distinct(rows, next) && i < |rows| && next <= later && forall x | x in SecretsOf(c) :: next <= x < later
    ensures Distinct(rows[i := c], later)
    ensures Spent(SecretsOf(rows[i]), rows[i := c])
  {
  }

  /** What a redirect, a challenge and a verifier are judged by. */
  datatype Rules = Rules(redirect: string -> bool, challenge: (string, string) -> bool, verifies: (string, string) -> bool)

  predicate ValidRequest(rules: Rules, q: Request) {
    rules.redirect(q.redirect) && rules.challenge(q.hashing, q.challenge) && Trim(q.client) != [] && ValidDevice(q.device)
  }

  /** The client presents what the grant was recorded with. */
  predicate Proves(rules: Rules, g: Grant, client: string, redirect: string, verifier: string) {
    g.client == Trim(client) && g.redirect == redirect && rules.verifies(g.challenge, verifier)
  }

  /** The deadline the policy sets, no lifetime being one. */
  function PolicyDeadline(ttl: Option<nat>, now: int): (until: Option<int>) {
    if ttl.None? then None else Some(SaturatingAdd(now, if ttl.value > I64_MAX then I64_MAX else ttl.value))
  }

  class Server {
    const tokenTtl: Option<nat>
    const accessTtl: int
    const refreshTtl: int
    const rules: Rules
    var accounts: map<nat, Account>
    var rows: seq<Credential>
    var grants: seq<Grant>
    var secrets: nat
    ghost var links: seq<Link>
    ghost var issuers: seq<nat>

    ghost predicate Valid()
      reads this
    {
      Sound(rows, links) && GrantsHold(rows, grants, issuers) && Distinct(rows, secrets)
    }

    constructor (tokenTtl: Option<nat>, accessTtl: int, refreshTtl: int, rules: Rules, accounts: map<nat, Account>)
      ensures Valid() && rows == [] && grants == []
      ensures this.tokenTtl == tokenTtl && this.rules == rules && this.accounts == accounts
    {
      this.tokenTtl, this.accessTtl, this.refreshTtl, this.rules, this.accounts := tokenTtl, accessTtl, refreshTtl, rules, accounts;
      rows, grants, secrets, links, issuers := [], [], 0, [], [];
    }

    /** Whoever a bearer answers to is admitted exactly when its account and its
        scopes both admit the level; nobody else is. */
    method Authenticated(secret: nat, level: Level, now: int) returns (r: Outcome)
      requires Valid()
      ensures r.Unauthorized? <==> forall i | 0 <= i < |rows| :: !Answers(rows[i], secret, now, accounts)
      ensures forall i: nat | i < |rows| && Answers(rows[i], secret, now, accounts) ::
                r == if Admits(rows[i], level, accounts) then Issued(i) else Forbidden
      ensures forall i: nat | i < |rows| && Bears(rows[i], secret) ::
                r == JudgedAs(rows[i], i, level, now, accounts)
    {
      for i := 0 to |rows|
        invariant forall k | 0 <= k < i :: !Answers(rows[k], secret, now, accounts)
      {
        if Answers(rows[i], secret, now, accounts) {
          forall k: nat | k < |rows| && secret in SecretsOf(rows[k]) ensures k == i {
            AnswersOnce(rows, secrets, k, i, secret);
          }
          return if Admits(rows[i], level, accounts) then Issued(i) else Forbidden;
        }
      }
      r := Unauthorized;
    }

    method IssueSession(user: nat, scopes: seq<string>, now: int, ghost link: Link) returns (row: nat)
      requires Valid()
      requires LinkHolds(rows + [Session(user, scopes, secrets, secrets + 1, now + accessTtl, now + refreshTtl, false)], |rows|, link)
      modifies this`rows, this`links, this`secrets
      ensures Valid()
      ensures row == |old(rows)| && links == old(links) + [link]
      ensures rows == old(rows) + [Session(user, scopes, old(secrets), old(secrets) + 1, now + accessTtl, now + refreshTtl, false)]
    {
      row := |rows|;
      var c := Session(user, scopes, secrets, secrets + 1, now + accessTtl, now + refreshTtl, false);
      SoundAfter(rows, links, c, link);
      DistinctAfter(rows, secrets, c, secrets + 2);
      rows, links, secrets := rows + [c], links + [link], secrets + 2;
    }

    /** A proved password opens a session no scope narrows. */
    method Login(user: nat, proved: bool, device: string, now: int) returns (r: Outcome)
      requires Valid()
      modifies this`rows, this`links, this`secrets
      ensures Valid()
      ensures r.Invalid? <==> !(0 < Utf8Length(Trim(device)) <= 120)
      ensures r.Issued? <==> 0 < Utf8Length(Trim(device)) <= 120 && proved && user in accounts && !accounts[user].disabled
      ensures if r.Issued? then
                && Extends(old(rows), rows, r.row) && links == old(links) + [Link.Login]
                && rows[r.row].Session? && rows[r.row].user == user && rows[r.row].scopes == []
              else rows == old(rows) && links == old(links)
    {
      if !ValidDevice(device) {
        return Invalid;
      }
      if !proved || user !in accounts || accounts[user].disabled {
        return Unauthorized;
      }
      var row := IssueSession(user, [], now, Link.Login);
      r := Issued(row);
    }

    /** Stores a token with its scopes trimmed, as they will be compared. */
    method IssueToken(user: nat, name: string, scopes: seq<string>, expires: Option<int>, ghost link: Link) returns (r: Outcome)
      requires Valid()
      requires LinkHolds(rows + [Token(user, TrimAll(scopes), secrets, expires, false)], |rows|, link)
      modifies this`rows, this`links, this`secrets
      ensures Valid()
      ensures r == if 0 < |Trim(name)| <= 120 && (forall i | 0 <= i < |scopes| :: Trim(scopes[i]) != []) then Issued(|old(rows)|) else Invalid
      ensures if r.Issued? then rows == old(rows) + [Token(user, TrimAll(scopes), old(secrets), expires, false)] && links == old(links) + [link]
              else rows == old(rows) && links == old(links)
      ensures r.Issued? ==>
                |rows[r.row].scopes| == |scopes| && forall i | 0 <= i < |scopes| :: rows[r.row].scopes[i] == Trim(scopes[i])
    {
      TrimmedIsNamed(scopes);
      var trimmed := TrimAll(scopes);
      if !ValidName(name) || [] in trimmed {
        return Invalid;
      }
      r := Issued(|rows|);
      var c := Token(user, trimmed, secrets, expires, false);
      SoundAfter(rows, links, c, link);
      DistinctAfter(rows, secrets, c, secrets + 1);
      rows, links, secrets := rows + [c], links + [link], secrets + 1;
    }

    /** A token for the asking account: no wider than the credential that asks,
        and with the sooner of the policy's deadline and that credential's own. */
    method CreateOwnApiToken(minter: nat, now: int, name: string, scopes: seq<string>) returns (r: Outcome)
      requires Valid() && minter < |rows|
      modifies this`rows, this`links, this`secrets
      ensures Valid()
      ensures r.Issued? <==> BoundByCaller(old(rows)[minter].scopes, scopes) && 0 < |Trim(name)| <= 120 && (forall i | 0 <= i < |scopes| :: Trim(scopes[i]) != [])
      ensures r.Forbidden? <==> !BoundByCaller(old(rows)[minter].scopes, scopes)
      ensures if r.Issued? then
                var own, policy := Deadline(old(rows)[minter]), PolicyDeadline(tokenTtl, now);
                && Extends(old(rows), rows, r.row) && links == old(links) + [Own(minter)]
                && rows[r.row].Token? && rows[r.row].user == old(rows)[minter].user && rows[r.row].scopes == TrimAll(scopes)
                && NoLater(rows[r.row].expires, own) && NoLater(rows[r.row].expires, policy)
                && (rows[r.row].expires == own || rows[r.row].expires == policy)
                && (policy.Some? <==> tokenTtl.Some?)
                && (tokenTtl.Some? && now + tokenTtl.value <= I64_MAX && tokenTtl.value <= I64_MAX ==> policy == Some(now + tokenTtl.value))
                && (tokenTtl.Some? ==> policy.value <= I64_MAX && policy.value <= now + tokenTtl.value)
              else rows == old(rows) && links == old(links)
    {
      if !BoundByCaller(rows[minter].scopes, scopes) {
        return Forbidden;
      }
      OneAtATimeBoundsTheList(rows[minter].scopes, scopes);
      r := IssueToken(rows[minter].user, name, scopes, Sooner(PolicyDeadline(tokenTtl, now), Deadline(rows[minter])), Own(minter));
    }

    /** An administrator's token for any account: no wider, but with no deadline. */
    method CreateApiToken(minter: nat, account: nat, name: string, scopes: seq<string>) returns (r: Outcome)
      requires Valid() && minter < |rows|
      modifies this`rows, this`links, this`secrets
      ensures Valid()
      ensures r.Issued? <==>
                && old(rows)[minter].user in accounts && accounts[old(rows)[minter].user].admin && !accounts[old(rows)[minter].user].disabled
                && BoundByCaller(old(rows)[minter].scopes, scopes)
                && account in accounts && 0 < |Trim(name)| <= 120 && (forall i | 0 <= i < |scopes| :: Trim(scopes[i]) != [])
      ensures if r.Issued? then
                && Extends(old(rows), rows, r.row) && links == old(links) + [Provisioned(minter)]
                && rows[r.row].Token? && rows[r.row].user == account && rows[r.row].scopes == TrimAll(scopes) && rows[r.row].expires.None?
              else rows == old(rows) && links == old(links)
    {
      var user := rows[minter].user;
      if user !in accounts || !accounts[user].admin || accounts[user].disabled || !BoundByCaller(rows[minter].scopes, scopes) {
        return Forbidden;
      }
      if account !in accounts {
        return NotFound;
      }
      OneAtATimeBoundsTheList(rows[minter].scopes, scopes);
      r := IssueToken(account, name, scopes, None, Provisioned(minter));
    }

    /** Records a code, exactly for a bearer that may write and a request that
        could be redeemed, narrowed to what that bearer is. */
    method Authorize(secret: nat, q: Request, now: int) returns (r: Outcome, code: nat)
      requires Valid()
      modifies this`grants, this`issuers
      ensures Valid()
      ensures r.Unauthorized? <==> forall i | 0 <= i < |rows| :: !Answers(rows[i], secret, now, accounts)
      ensures forall i: nat | i < |rows| && Answers(rows[i], secret, now, accounts) ::
                r == if !GrantedBy(Write, rows[i].scopes) then Forbidden
                     else if rules.redirect(q.redirect) && rules.challenge(q.hashing, q.challenge)
                             && Trim(q.client) != [] && 0 < Utf8Length(Trim(q.device)) <= 120 then Issued(i)
                     else Invalid
      ensures if r.Issued? then
                && r.row < |rows| && code == |old(grants)| && issuers == old(issuers) + [r.row]
                && grants == old(grants) + [Grant(
                     rows[r.row].user, Trim(q.client), q.redirect, q.challenge, Trim(q.device),
                     rows[r.row].scopes, now + CODE_TTL, false)]
              else grants == old(grants) && issuers == old(issuers)
    {
      code := |grants|;
      r := Authenticated(secret, Write, now);
      if r.Issued? {
        if !ValidRequest(rules, q) {
          return Invalid, code;
        }
        TrimSettles(q.device);
        grants := grants + [Grant(
          rows[r.row].user, Trim(q.client), q.redirect, q.challenge, Trim(q.device),
          rows[r.row].scopes, now + CODE_TTL, false)];
        issuers := issuers + [r.row];
      }
    }

    /** Spends a code, whatever comes of it, and issues its session under its
        scopes if the client proves the code is its own. The device's name was
        judged when the code was recorded, so it never costs the code. */
    method Redeem(code: nat, client: string, redirect: string, verifier: string, now: int) returns (r: Outcome)
      requires Valid()
      modifies this`rows, this`links, this`secrets, this`grants
      ensures Valid()
      ensures r.Issued? <==>
                && code < |old(grants)| && !old(grants)[code].redeemed && old(grants)[code].until > now
                && old(grants)[code].client == Trim(client) && old(grants)[code].redirect == redirect
                && rules.verifies(old(grants)[code].challenge, verifier)
                && old(grants)[code].user in accounts && !accounts[old(grants)[code].user].disabled
      ensures grants == if code < |old(grants)| && old(grants)[code].until > now
                        then old(grants)[code := old(grants)[code].(redeemed := true)] else old(grants)
      ensures if r.Issued? then
                && Extends(old(rows), rows, r.row) && links == old(links) + [Redeemed(issuers[code])]
                && rows[r.row].Session? && rows[r.row].scopes == old(grants)[code].scopes && rows[r.row].user == old(grants)[code].user
              else rows == old(rows) && links == old(links)
    {
      if code >= |grants| || grants[code].redeemed || grants[code].until <= now {
        return Unauthorized;
      }
      var grant := grants[code];
      grants := grants[code := grant.(redeemed := true)];
      if !Proves(rules, grant, client, redirect, verifier) || !ValidDevice(grant.device)
         || grant.user !in accounts || accounts[grant.user].disabled {
        return Unauthorized;
      }
      var row := IssueSession(grant.user, grant.scopes, now, Redeemed(issuers[code]));
      r := Issued(row);
    }

    /** Renews exactly the live session a refresh secret belongs to: its secrets
        and deadlines change in place and nothing else does, and neither of the
        two secrets it had is anyone's any more. */
    method Refresh(refresh: nat, now: int) returns (r: Outcome)
      requires Valid()
      modifies this`rows, this`secrets
      ensures Valid()
      ensures r.Unauthorized? <==> forall i | 0 <= i < |old(rows)| :: !Renewable(old(rows)[i], refresh, now, accounts)
      ensures forall i: nat | i < |old(rows)| && old(rows)[i].Session? && old(rows)[i].refresh == refresh ::
                r == if old(rows)[i].revoked || old(rows)[i].refreshUntil <= now
                        || old(rows)[i].user !in accounts || accounts[old(rows)[i].user].disabled
                     then Unauthorized else Issued(i)
      ensures if r.Issued? then
                && r.row < |old(rows)| && old(rows)[r.row].Session?
                && rows == old(rows)[r.row := old(rows)[r.row].(
                             access := old(secrets), refresh := old(secrets) + 1,
                             accessUntil := now + accessTtl, refreshUntil := now + refreshTtl)]
                && Spent(SecretsOf(old(rows)[r.row]), rows)
              else rows == old(rows)
    {
      for i := 0 to |rows|
        invariant rows == old(rows) && secrets == old(secrets)
        invariant forall k | 0 <= k < i :: !Renewable(rows[k], refresh, now, accounts)
      {
        var c := rows[i];
        if Renewable(c, refresh, now, accounts) {
          forall k: nat | k < |rows| && Renewable(rows[k], refresh, now, accounts) ensures k == i {
            AnswersOnce(rows, secrets, k, i, refresh);
          }
          var rotated := c.(access := secrets, refresh := secrets + 1, accessUntil := now + accessTtl, refreshUntil := now + refreshTtl);
          SoundOnceUpdated(rows, links, i, rotated);
          DistinctOnceRotated(rows, secrets, i, rotated, secrets + 2);
          rows, secrets := rows[i := rotated], secrets + 2;
          return Issued(i);
        }
      }
      r := Unauthorized;
    }

    /** Every live chain is bounded, whatever was called before. */
    lemma Bounded(i: nat, from: nat)
      requires Valid() && i < |rows|
      ensures Descends(links, i, from) ==> from < |rows| && Within(rows[i].scopes, rows[from].scopes)
      ensures SelfMinted(links, i, from) ==> from < |rows| && NoLater(Deadline(rows[i]), Deadline(rows[from]))
    {
      if Descends(links, i, from) {
        ChainsNeverWiden(rows, links, i, from);
      }
      if SelfMinted(links, i, from) {
        SelfMintedNeverOutlives(rows, links, i, from);
      }
    }
  }
}
