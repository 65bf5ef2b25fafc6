/**
 * The data room's access policy, as pure functions of the settings snapshot,
 * the browser's localStorage and the page's query parameters
 * (dataroom.app.js, "ACCESS GATING"). The class in dataroom_app.dfy performs
 * the same steps as state changes and is proved against these functions.
 */
module DataRoomAccess {
  import opened Wrappers
  import opened Text

  /** The settings snapshot: policy key to value, as read from `dataroom_settings`. */
  type Settings = map<string, string>
  /** The browser's localStorage. */
  type Store = map<string, string>
  /** The page's query parameters: the first value of each name, already URL-decoded. */
  type Query = map<string, string>

  const StatusKey := "dr_status"
  const ModeKey := "dr_access_mode"
  const PasswordKey := "dr_password"
  const TokenKey := "dr_link_token"
  const ProofPrefix := "redew_dataroom_unlocked_v2:"
  const LegacyProofKey := "redew_dataroom_unlocked_v1"

  // ---------------------------------------------------------------------------
  // Settings snapshot
  // ---------------------------------------------------------------------------

  /** One row of `dataroom_settings`. */
  datatype Row = Row(key: string, value: string)

  /** The snapshot `loadSettings` builds: start empty, then each row in order overwrites its key. */
  function Snapshot(rows: seq<Row>): Settings {
    if rows == [] then map[]
    else Snapshot(rows[..|rows| - 1])[rows[|rows| - 1].key := rows[|rows| - 1].value]
  }

  /** The snapshot holds exactly the keys of the rows; nothing else survives. */
  lemma {:induction false} SnapshotKeys(rows: seq<Row>, k: string)
    ensures k in Snapshot(rows) <==> exists i :: 0 <= i < |rows| && rows[i].key == k
  {
    if rows != [] {
      var init := rows[..|rows| - 1];
      SnapshotKeys(init, k);
      if k in Snapshot(init) {
        var i :| 0 <= i < |init| && init[i].key == k;
        assert rows[i].key == k;
      }
      if exists i :: 0 <= i < |rows| && rows[i].key == k {
        var i :| 0 <= i < |rows| && rows[i].key == k;
        if i < |init| {
          assert init[i].key == k;
        }
      }
    }
  }

  /** Each key carries the value of the LAST row with that key. */
  lemma {:induction false} SnapshotLastWins(rows: seq<Row>, i: nat)
    requires i < |rows|
    requires forall j :: i < j < |rows| ==> rows[j].key != rows[i].key
    ensures rows[i].key in Snapshot(rows) && Snapshot(rows)[rows[i].key] == rows[i].value
  {
    if i < |rows| - 1 {
      var init := rows[..|rows| - 1];
      assert init[i] == rows[i];
      SnapshotLastWins(init, i);
    }
  }


  // ---------------------------------------------------------------------------
  // Reading the policy out of the settings
  // ---------------------------------------------------------------------------

  /** JavaScript's `obj.k || fallback` on a string-valued lookup. */
  function SettingOr(s: map<string, string>, k: string, fallback: string): (v: string)
    ensures v == fallback || (k in s && v == s[k] && v != "")
    ensures k in s && s[k] != "" ==> v == s[k]
  {
    if k in s && s[k] != "" then s[k] else fallback
  }

  /** `x.toString().trim().toLowerCase()`, as applied to mode names. */
  function NormalizeMode(raw: string): string {
    Lower(Trim(raw))
  }

  datatype Mode = Open | Token | Password

  /** The mode's name as the page writes it. */
  function ModeName(m: Mode): string {
    match m
    case Open => "open"
    case Token => "token"
    case Password => "password"
  }

  /** The three mode names are already in normal form. */
  lemma ModeNamesNormal()
    ensures forall m: Mode :: NormalizeMode(ModeName(m)) == ModeName(m)
  {
    OpenIsNormal();
    TokenIsNormal();
    PasswordIsNormal();
  }

  lemma OpenIsNormal() ensures NormalizeMode("open") == "open" {
    CanonicalWord("open");
  }

  lemma TokenIsNormal() ensures NormalizeMode("token") == "token" {
    CanonicalWord("token");
  }

  lemma PasswordIsNormal() ensures NormalizeMode("password") == "password" {
    CanonicalWord("password");
  }

  /**
   * `getAccessMode`: the trimmed, lower-cased setting when it names a mode;
   * password mode for anything else, including a missing or empty setting.
   */
  function GetAccessMode(s: Settings): Mode {
    var m := NormalizeMode(SettingOr(s, ModeKey, "password"));
    if m == "open" then Open else if m == "token" then Token else Password
  }

  /** Open and token mode are chosen exactly by their (normalised) names; anything else, or nothing, is password mode. */
  lemma GetAccessModeSpec(s: Settings)
    ensures GetAccessMode(s) == Open <==> ModeKey in s && NormalizeMode(s[ModeKey]) == "open"
    ensures GetAccessMode(s) == Token <==> ModeKey in s && NormalizeMode(s[ModeKey]) == "token"
  {
    PasswordIsNormal();
  }

  /** `getPassword`: the configured password, trimmed ("" when unset). */
  function GetPassword(s: Settings): string {
    Trim(SettingOr(s, PasswordKey, ""))
  }

  /** `getLinkToken`: the configured link token, trimmed ("" when unset). */
  function GetLinkToken(s: Settings): string {
    Trim(SettingOr(s, TokenKey, ""))
  }

  /** Both credentials come back trimmed, and "" when their key is missing. */
  lemma CredentialsTrimmed(s: Settings)
    ensures Trim(GetPassword(s)) == GetPassword(s) && Trim(GetLinkToken(s)) == GetLinkToken(s)
    ensures PasswordKey !in s ==> GetPassword(s) == ""
    ensures TokenKey !in s ==> GetLinkToken(s) == ""
  {
    TrimIdempotent(SettingOr(s, PasswordKey, ""));
    TrimIdempotent(SettingOr(s, TokenKey, ""));
    TrimEmpty();
  }

  lemma TrimEmpty()
    ensures Trim("") == ""
  {
  }

  /** `(settings.dr_status || 'active').toLowerCase()`: lower-cased but NOT trimmed. */
  function Status(s: Settings): string {
    Lower(SettingOr(s, StatusKey, "active"))
  }

  /** A missing status counts as `active`. */
  lemma AbsentStatusIsActive(s: Settings)
    requires StatusKey !in s
    ensures !IsBlockingStatus(Status(s))
  {
    assert |Status(s)| == |"active"|;
  }

  /** The status is lower-cased but not trimmed: a value with leading whitespace (`" disabled"`) never blocks. */
  lemma PaddedStatusIsNotBlocking(s: Settings)
    requires StatusKey in s && s[StatusKey] != "" && IsWhitespace(s[StatusKey][0])
    ensures !IsBlockingStatus(Status(s))
  {
    var raw := s[StatusKey];
    assert SettingOr(s, StatusKey, "active") == raw;
    LowerShape(raw);
    assert Status(s)[0] == raw[0];
    assert !IsWhitespace("disabled"[0]) && !IsWhitespace("maintenance"[0]);
  }

  /**
   * Everything the gate reads from the settings snapshot. The page re-reads
   * each piece through its getter; all getters are functions of the same
   * snapshot, so reading them once is the same.
   */
  datatype Policy = Policy(status: string, mode: Mode, password: string, token: string)

  function PolicyOf(s: Settings): Policy {
    Policy(Status(s), GetAccessMode(s), GetPassword(s), GetLinkToken(s))
  }

  predicate IsBlockingStatus(status: string) {
    status == "disabled" || status == "maintenance"
  }

  // ---------------------------------------------------------------------------
  // Unlock proofs
  // ---------------------------------------------------------------------------

  /** `unlockKeyFor` as written, on the mode text: `(mode || 'password')` trimmed and lower-cased. */
  function UnlockKeyText(modeText: string, credential: string): string {
    ProofPrefix + NormalizeMode(if modeText == "" then "password" else modeText) + ":" + Trim(credential)
  }

  /** `unlockKeyFor(mode, credential)` for the mode names the page passes: `redew_dataroom_unlocked_v2:<mode>:<credential>`. */
  function UnlockKeyFor(m: Mode, credential: string): string {
    ProofPrefix + ModeName(m) + ":" + Trim(credential)
  }

  /** The key agrees with `unlockKeyFor` on the mode's name, and never equals the v1 flag's key. */
  lemma UnlockKeyForSpec(m: Mode, credential: string)
    ensures UnlockKeyFor(m, credential) == UnlockKeyText(ModeName(m), credential)
    ensures StartsWith(UnlockKeyFor(m, credential), ProofPrefix)
    ensures UnlockKeyFor(m, credential) != LegacyProofKey
  {
    ModeNamesNormal();
    var k := UnlockKeyFor(m, credential);
    assert |k| > |LegacyProofKey|;
  }

  /**
   * Proof keys are equal exactly when the modes are equal and the trimmed
   * credentials are equal: a proof for one credential is never found under
   * another, and token and password proofs never collide.
   */
  lemma UnlockKeysDistinct(m1: Mode, c1: string, m2: Mode, c2: string)
    ensures UnlockKeyFor(m1, c1) == UnlockKeyFor(m2, c2) <==> m1 == m2 && Trim(c1) == Trim(c2)
  {
    var k1, k2 := UnlockKeyFor(m1, c1), UnlockKeyFor(m2, c2);
    var n1, n2 := |ProofPrefix + ModeName(m1) + ":"|, |ProofPrefix + ModeName(m2) + ":"|;
    assert k1[n1..] == Trim(c1);
    assert k2[n2..] == Trim(c2);
    if m1 != m2 {
      assert k1[|ProofPrefix|] == ModeName(m1)[0];
      assert k2[|ProofPrefix|] == ModeName(m2)[0];
    }
  }

  /** `localStorage.getItem(k) === 'true'`. */
  predicate HasProof(st: Store, k: string) {
    k in st && st[k] == "true"
  }

  function TokenProofKey(p: Policy): string {
    UnlockKeyFor(Token, p.token)
  }

  function PasswordProofKey(p: Policy): string {
    UnlockKeyFor(Password, p.password)
  }

  /** `isUnlocked`: open mode, or a stored proof for the current token (or, outside token mode, the current password). */
  predicate IsUnlocked(p: Policy, st: Store) {
    match p.mode
    case Open => true
    case Token => p.token != "" && HasProof(st, TokenProofKey(p))
    case Password =>
      || (p.token != "" && HasProof(st, TokenProofKey(p)))
      || (p.password != "" && HasProof(st, PasswordProofKey(p)))
  }

  /** The keys `clearUnlock` removes: the current password and token proofs and the v1 flag. */
  function ProofKeysToClear(p: Policy): set<string> {
    {LegacyProofKey}
    + (if p.password != "" then {PasswordProofKey(p)} else {})
    + (if p.token != "" then {TokenProofKey(p)} else {})
  }

  /** The store after `clearUnlock`: the password proof, the token proof, then the v1 flag are removed. */
  function Cleared(p: Policy, st: Store): Store {
    var afterPw := if p.password != "" then st - {PasswordProofKey(p)} else st;
    var afterTok := if p.token != "" then afterPw - {TokenProofKey(p)} else afterPw;
    afterTok - {LegacyProofKey}
  }

  /** `clearUnlock` removes exactly the keys of ProofKeysToClear and keeps every other entry as it was. */
  lemma ClearedRemovesExactly(p: Policy, st: Store)
    ensures Cleared(p, st) == st - ProofKeysToClear(p)
  {
    var dropPw: set<string> := if p.password != "" then {PasswordProofKey(p)} else {};
    var dropTok: set<string> := if p.token != "" then {TokenProofKey(p)} else {};
    assert ProofKeysToClear(p) == {LegacyProofKey} + dropPw + dropTok;
    assert Cleared(p, st) == st - dropPw - dropTok - {LegacyProofKey};
    MinusInSteps(st, dropPw, dropTok, {LegacyProofKey});
  }

  /** Removing three key sets one after another is removing their union. */
  lemma MinusInSteps(m: Store, a: set<string>, b: set<string>, c: set<string>)
    ensures m - a - b - c == m - (c + a + b)
  {
  }

  /**
   * The key `setUnlocked(true, modeUsed)` writes, if any: the current token's key
   * in token mode, else the current password's key; nothing when that credential
   * is unset. `modeUsed == None` is a call without a mode (the configured one).
   */
  function UnlockTarget(p: Policy, modeUsed: Option<Mode>): Option<string> {
    if modeUsed.GetOr(p.mode) == Token then
      if p.token != "" then Some(TokenProofKey(p)) else None
    else
      if p.password != "" then Some(PasswordProofKey(p)) else None
  }

  /** Only a configured credential's own key is ever written. */
  lemma UnlockTargetSpec(p: Policy, modeUsed: Option<Mode>)
    ensures UnlockTarget(p, modeUsed) in {None, Some(TokenProofKey(p)), Some(PasswordProofKey(p))}
    ensures UnlockTarget(p, modeUsed) == Some(TokenProofKey(p)) ==> p.token != ""
    ensures UnlockTarget(p, modeUsed) == Some(PasswordProofKey(p)) ==> p.password != ""
  {
    UnlockKeysDistinct(Token, p.token, Password, p.password);
  }

  /** The store after `setUnlocked(true, modeUsed)`. */
  function Unlocked(p: Policy, st: Store, modeUsed: Option<Mode>): Store {
    match UnlockTarget(p, modeUsed)
    case None => st
    case Some(k) => st[k := "true"]
  }

  /** Writing a proof with a configured credential makes `isUnlocked` true under the same policy. */
  lemma UnlockRoundTrip(p: Policy, st: Store, used: Mode)
    requires used == Token ==> p.token != ""
    requires used == Password ==> p.password != "" && p.mode != Token
    requires used != Open
    ensures IsUnlocked(p, Unlocked(p, st, Some(used)))
  {
  }

  /** After `clearUnlock` only open mode still counts as unlocked. */
  lemma ClearedLocksAgain(p: Policy, st: Store)
    ensures IsUnlocked(p, Cleared(p, st)) <==> p.mode == Open
  {
  }

  // ---------------------------------------------------------------------------
  // The authorisation decision (enforceAccessRules)
  // ---------------------------------------------------------------------------

  const MisconfiguredPrompt := "This data room is configured for token-based access, but no token is set. Ask the administrator to set one in the Admin Dashboard."
  const TokenPrompt := "This data room requires an investor link token. Please use the investor link provided by the administrator, or enter your token below."
  const PasscodePrompt := "Enter the investor access passcode to continue."

  /** `StatusBlocked`: the status blocker is shown; `Prompt`: the access modal is shown with this message and input mode. */
  datatype Outcome =
    | StatusBlocked(kind: string)
    | Authorized
    | Prompt(message: string, mode: Mode)

  /** The decision on a store in which the link auto-unlock has already run: open, then token, then password. */
  function Evaluate(p: Policy, st: Store): Outcome {
    if IsBlockingStatus(p.status) then StatusBlocked(p.status)
    else match p.mode
      case Open => Authorized
      case Token =>
        if p.token == "" then Prompt(MisconfiguredPrompt, Token)
        else if !IsUnlocked(p, st) then Prompt(TokenPrompt, Token)
        else Authorized
      case Password =>
        if p.password != "" && !IsUnlocked(p, st) then Prompt(PasscodePrompt, Password)
        else Authorized
  }

  /**
   * `enforceAccessRules`: the outcome, the store and the query it leaves. The
   * link auto-unlock runs only when the status does not block and the mode is
   * not open.
   */
  function Enforce(p: Policy, st: Store, q: Query): (Outcome, Store, Query) {
    if IsBlockingStatus(p.status) || p.mode == Open then (Evaluate(p, st), st, q)
    else (Evaluate(p, LinkStore(p, st, q)), LinkStore(p, st, q), LinkQuery(p, q))
  }

  /** A disabled or maintenance status blocks whatever the mode, the stored proofs and the link. */
  lemma StatusDominates(p: Policy, st: Store, q: Query)
    requires IsBlockingStatus(p.status)
    ensures Enforce(p, st, q) == (StatusBlocked(p.status), st, q)
  {
  }

  /** Open mode grants access whatever is stored, and never consumes link parameters. */
  lemma OpenModeAuthorizes(p: Policy, st: Store, q: Query)
    requires !IsBlockingStatus(p.status) && p.mode == Open
    ensures Enforce(p, st, q) == (Authorized, st, q)
  {
  }

  /**
   * Token mode: an empty configured token is a misconfiguration; otherwise access
   * is granted exactly when the store holds `'true'` under the current token's key.
   */
  lemma TokenModeDecision(p: Policy, st: Store)
    requires !IsBlockingStatus(p.status) && p.mode == Token
    ensures p.token == "" ==> Evaluate(p, st) == Prompt(MisconfiguredPrompt, Token)
    ensures Evaluate(p, st) == Authorized <==> p.token != "" && HasProof(st, TokenProofKey(p))
    ensures p.token != "" && Evaluate(p, st) != Authorized ==> Evaluate(p, st) == Prompt(TokenPrompt, Token)
  {
  }

  /**
   * Password mode (also the mode for a missing or unrecognised setting): access is
   * granted exactly when no password is configured, or a proof exists for the
   * current token or the current password.
   */
  lemma PasswordModeDecision(p: Policy, st: Store)
    requires !IsBlockingStatus(p.status) && p.mode == Password
    ensures Evaluate(p, st) == Authorized <==>
      || p.password == ""
      || (p.token != "" && HasProof(st, TokenProofKey(p)))
      || HasProof(st, PasswordProofKey(p))
    ensures Evaluate(p, st) != Authorized ==> Evaluate(p, st) == Prompt(PasscodePrompt, Password)
  {
  }

  /**
   * `isUnlocked` is not the decision: in password mode with no password and no
   * proofs nothing is unlocked, yet access is granted.
   */
  lemma IsUnlockedIsNotTheDecision(p: Policy)
    requires !IsBlockingStatus(p.status) && p.mode == Password && p.password == "" && p.token == ""
    ensures !IsUnlocked(p, map[]) && Evaluate(p, map[]) == Authorized
  {
  }

  /** The decision reads the store only at the current token and password keys. */
  lemma EvaluateReadsCurrentProofs(p: Policy, st1: Store, st2: Store)
    requires HasProof(st1, TokenProofKey(p)) == HasProof(st2, TokenProofKey(p))
    requires HasProof(st1, PasswordProofKey(p)) == HasProof(st2, PasswordProofKey(p))
    ensures Evaluate(p, st1) == Evaluate(p, st2)
  {
  }

  /**
   * A proof stored for any credential other than the configured ones is never
   * looked up: changing the configured credential retires every older proof.
   */
  lemma StaleProofIgnored(p: Policy, st: Store, m: Mode, credential: string)
    requires Trim(credential) != Trim(p.token) && Trim(credential) != Trim(p.password)
    ensures Evaluate(p, st[UnlockKeyFor(m, credential) := "true"]) == Evaluate(p, st)
  {
    var k := UnlockKeyFor(m, credential);
    UnlockKeysDistinct(m, credential, Token, p.token);
    UnlockKeysDistinct(m, credential, Password, p.password);
    EvaluateReadsCurrentProofs(p, st[k := "true"], st);
  }

  /** More proofs never take access away. */
  lemma EvaluateMonotone(p: Policy, st1: Store, st2: Store)
    requires HasProof(st1, TokenProofKey(p)) ==> HasProof(st2, TokenProofKey(p))
    requires HasProof(st1, PasswordProofKey(p)) ==> HasProof(st2, PasswordProofKey(p))
    requires Evaluate(p, st1) == Authorized
    ensures Evaluate(p, st2) == Authorized
  {
  }

  /** After `clearUnlock`, a token-mode room with a configured token asks for the token again. */
  lemma ClearedTokenRoomAsksAgain(p: Policy, st: Store)
    requires !IsBlockingStatus(p.status) && p.mode == Token && p.token != ""
    ensures Evaluate(p, Cleared(p, st)) == Prompt(TokenPrompt, Token)
  {
  }

  // ---------------------------------------------------------------------------
  // Auto-unlock from the URL (maybeAutoUnlockFromLink)
  // ---------------------------------------------------------------------------

  /** `(getQueryParam('pw') || getQueryParam('access') || '').trim()`. */
  function PwParam(q: Query): string {
    Trim(SettingOr(q, "pw", SettingOr(q, "access", "")))
  }

  /** `(getQueryParam('token') || '').trim()`. */
  function TokenParam(q: Query): string {
    Trim(SettingOr(q, "token", ""))
  }

  /** Which credential a link carries, if any: an exact match against a non-empty configured value, token first. */
  function LinkMatch(p: Policy, q: Query): (m: Option<Mode>)
    ensures m == Some(Token) <==> p.token != "" && TokenParam(q) == p.token
    ensures m == Some(Password) <==> !(p.token != "" && TokenParam(q) == p.token) && p.password != "" && PwParam(q) == p.password
    ensures m != Some(Open)
  {
    var pwParam, tokenParam := PwParam(q), TokenParam(q);
    if p.token != "" && tokenParam != "" && tokenParam == p.token then Some(Token)
    else if p.password != "" && pwParam != "" && pwParam == p.password then Some(Password)
    else None
  }

  /** The store after `maybeAutoUnlockFromLink`. */
  function LinkStore(p: Policy, st: Store, q: Query): Store {
    match LinkMatch(p, q)
    case None => st
    case Some(m) => Unlocked(p, st, Some(m))
  }

  /** The query after `maybeAutoUnlockFromLink`: the credential parameters go only when a link unlocked. */
  function LinkQuery(p: Policy, q: Query): Query {
    if LinkMatch(p, q).Some? then q - {"pw", "access", "token"} else q
  }

  /** An address whose credential parameters are gone carries no link credential. */
  lemma StrippedQueryMatchesNothing(p: Policy, q: Query)
    requires "token" !in q && "pw" !in q && "access" !in q
    ensures LinkMatch(p, q).None?
  {
    assert SettingOr(q, "token", "") == "" && SettingOr(q, "pw", SettingOr(q, "access", "")) == "";
    assert TokenParam(q) == "" && PwParam(q) == "";
  }

  /** Running the auto-unlock a second time changes nothing (the page runs it on every access check). */
  lemma LinkIdempotent(p: Policy, st: Store, q: Query)
    ensures LinkStore(p, LinkStore(p, st, q), LinkQuery(p, q)) == LinkStore(p, st, q)
    ensures LinkQuery(p, LinkQuery(p, q)) == LinkQuery(p, q)
    ensures LinkMatch(p, LinkQuery(p, q)).None?
  {
    if LinkMatch(p, q).Some? {
      StrippedQueryMatchesNothing(p, LinkQuery(p, q));
    }
  }

  /**
   * A link carrying the configured token unlocks the room on the same load and
   * its parameters are stripped; a link carrying the password does so in
   * password mode.
   */
  lemma LinkUnlockAuthorizes(p: Policy, st: Store, q: Query)
    requires !IsBlockingStatus(p.status) && p.mode != Open
    requires LinkMatch(p, q) == Some(Token) || (LinkMatch(p, q) == Some(Password) && p.mode == Password)
    ensures Enforce(p, st, q).0 == Authorized
    ensures "token" !in Enforce(p, st, q).2 && "pw" !in Enforce(p, st, q).2 && "access" !in Enforce(p, st, q).2
  {
    UnlockRoundTrip(p, st, LinkMatch(p, q).value);
  }

  /**
   * In token mode a link carrying the password unlocks nothing: the proof it
   * writes is a password proof, which the token check never reads.
   */
  lemma PasswordLinkDoesNotOpenTokenRoom(p: Policy, st: Store, q: Query)
    requires !IsBlockingStatus(p.status) && p.mode == Token && p.token != ""
    requires LinkMatch(p, q) == Some(Password) && !HasProof(st, TokenProofKey(p))
    ensures Enforce(p, st, q).0 == Prompt(TokenPrompt, Token)
  {
    UnlockKeysDistinct(Password, p.password, Token, p.token);
    assert !HasProof(LinkStore(p, st, q), TokenProofKey(p));
  }

  /** Without a matching parameter nothing is written and the URL is left alone. */
  lemma LinkWithoutMatchChangesNothing(p: Policy, st: Store, q: Query)
    requires !(p.token != "" && TokenParam(q) == p.token)
    requires !(p.password != "" && PwParam(q) == p.password)
    ensures LinkStore(p, st, q) == st && LinkQuery(p, q) == q
  {
  }

  // ---------------------------------------------------------------------------
  // Credential submission (the `submit` closure of setupAccessModalHandlers)
  // ---------------------------------------------------------------------------

  const NoTokenMessage := "No token is configured. Please contact the administrator."
  const WrongTokenMessage := "Incorrect token."
  const WrongPasscodeMessage := "Incorrect passcode."

  /** `Proceed`: the modal is hidden and the app starts; `Rejected`: the message is shown in the form. */
  datatype SubmitResult = Proceed | Rejected(message: string)

  /** What one submission of `entered` decides, and the store it leaves. */
  function Submission(p: Policy, st: Store, entered: string): (SubmitResult, Store) {
    var e := Trim(entered);
    match p.mode
    case Open => (Proceed, st)
    case Token =>
      if p.token == "" then (Rejected(NoTokenMessage), st)
      else if e == p.token then (Proceed, Unlocked(p, st, Some(Token)))
      else (Rejected(WrongTokenMessage), st)
    case Password =>
      if p.token != "" && e == p.token then (Proceed, Unlocked(p, st, Some(Token)))
      else if p.password == "" then (Proceed, st)
      else if e == p.password then (Proceed, Unlocked(p, st, Some(Password)))
      else (Rejected(WrongPasscodeMessage), st)
  }

  /** The entered value is trimmed before it is compared. */
  lemma SubmissionTrims(p: Policy, st: Store, entered: string)
    ensures Submission(p, st, entered) == Submission(p, st, Trim(entered))
  {
    TrimIdempotent(entered);
  }

  /** A rejection never touches the store, and names the reason the page gives. */
  lemma SubmissionRejectionKeepsStore(p: Policy, st: Store, entered: string)
    requires Submission(p, st, entered).0.Rejected?
    ensures Submission(p, st, entered).1 == st
    ensures Submission(p, st, entered).0.message ==
      if p.mode == Password then WrongPasscodeMessage
      else if p.token == "" then NoTokenMessage
      else WrongTokenMessage
  {
  }

  /** In token mode with no token configured, every submission is refused with the configuration message. */
  lemma SubmissionWithoutToken(p: Policy, st: Store, entered: string)
    requires p.mode == Token && p.token == ""
    ensures Submission(p, st, entered) == (Rejected(NoTokenMessage), st)
  {
  }

  /** In password mode the configured token is accepted too, and stored as a token proof. */
  lemma PasswordModeAcceptsToken(p: Policy, st: Store, entered: string)
    requires p.mode == Password && p.token != "" && Trim(entered) == p.token
    ensures Submission(p, st, entered) == (Proceed, st[TokenProofKey(p) := "true"])
  {
  }

  /**
   * Every accepted submission leads to an authorised room under the same
   * policy (unless the status blocks): the proof it writes is the one the
   * decision looks up.
   */
  lemma SubmissionProceedAuthorizes(p: Policy, st: Store, entered: string)
    requires !IsBlockingStatus(p.status)
    requires Submission(p, st, entered).0 == Proceed
    ensures Evaluate(p, Submission(p, st, entered).1) == Authorized
  {
    match p.mode
    case Open =>
    case Token =>
      UnlockRoundTrip(p, st, Token);
    case Password =>
      PasswordSubmissionAuthorizes(p, st, entered);
  }

  lemma PasswordSubmissionAuthorizes(p: Policy, st: Store, entered: string)
    requires !IsBlockingStatus(p.status) && p.mode == Password
    requires Submission(p, st, entered).0 == Proceed
    ensures Evaluate(p, Submission(p, st, entered).1) == Authorized
  {
    var e := Trim(entered);
    if p.token != "" && e == p.token {
      UnlockRoundTrip(p, st, Token);
    } else if p.password != "" {
      UnlockRoundTrip(p, st, Password);
    }
  }

  /** In password mode the passcode is accepted with any whitespace around it, and then opens the room. */
  lemma PaddedPasscodeAccepted(p: Policy, st: Store, a: string, b: string)
    requires !IsBlockingStatus(p.status) && p.mode == Password && p.password != "" && Trim(p.password) == p.password
    requires AllWhitespace(a) && AllWhitespace(b)
    ensures Submission(p, st, a + p.password + b).0 == Proceed
    ensures Evaluate(p, Submission(p, st, a + p.password + b).1) == Authorized
  {
    TrimPadded(a, p.password, b);
    SubmissionProceedAuthorizes(p, st, a + p.password + b);
  }
}
