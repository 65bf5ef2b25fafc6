/**
 * The investor page gate and tracker (investor-gate.js): which paths are
 * gated, the stored session and its seven-day lifetime, the three ways of
 * validating a visitor, the order of checks on submit, and the scroll and
 * section tracking. Supabase query results and the browser's clock and
 * layout are inputs.
 */
module InvestorGate {
  import opened Wrappers
  import opened Text
  import opened SessionCodec
  import opened Arith

  /** localStorage. */
  type Store = map<string, string>

  const SessionKey := "redew_investor_session"
  /** Seven days, in milliseconds. */
  const SessionTtl: nat := 7 * 24 * 60 * 60 * 1000

  // ---------------------------------------------------------------------------
  // esc
  // ---------------------------------------------------------------------------

  /** `esc`: `&`, `<`, `>` and `"` replaced in that order (apostrophes are kept); a missing value is "". */
  function Esc(s: string): string {
    var a := ReplaceAll(s, '&', "&amp;");
    var b := ReplaceAll(a, '<', "&lt;");
    var c := ReplaceAll(b, '>', "&gt;");
    ReplaceAll(c, '"', "&quot;")
  }

  /** The escaped text holds no `<`, `>` or `"`, and an apostrophe only when the input had one. */
  lemma EscHasNoMarkup(s: string)
    ensures '<' !in Esc(s) && '>' !in Esc(s) && '"' !in Esc(s)
    ensures '\'' in Esc(s) ==> '\'' in s
  {
    var a := ReplaceAll(s, '&', "&amp;");
    var b := ReplaceAll(a, '<', "&lt;");
    var c := ReplaceAll(b, '>', "&gt;");
    ReplaceRemoves(a, '<', "&lt;");
    ReplaceKeepsAbsent(b, '>', "&gt;", '<');
    ReplaceKeepsAbsent(c, '"', "&quot;", '<');
    ReplaceRemoves(b, '>', "&gt;");
    ReplaceKeepsAbsent(c, '"', "&quot;", '>');
    ReplaceRemoves(c, '"', "&quot;");
    if '\'' !in s {
      ReplaceKeepsAbsent(s, '&', "&amp;", '\'');
      ReplaceKeepsAbsent(a, '<', "&lt;", '\'');
      ReplaceKeepsAbsent(b, '>', "&gt;", '\'');
      ReplaceKeepsAbsent(c, '"', "&quot;", '\'');
    }
  }

  /** A replacement without the replaced character removes it everywhere. */
  lemma ReplaceRemoves(s: string, c: char, rep: string)
    requires c !in rep
    ensures c !in ReplaceAll(s, c, rep)
  {
    ReplaceAllFacts(s, c, rep);
  }

  /** A character in neither the text nor the replacement is not in the result. */
  lemma ReplaceKeepsAbsent(s: string, c: char, rep: string, x: char)
    requires x !in s && x !in rep
    ensures x !in ReplaceAll(s, c, rep)
  {
    ReplaceAllFacts(s, c, rep);
  }

  /** Text without any of the four characters is left exactly as it is. */
  lemma EscPlainText(s: string)
    requires '&' !in s && '<' !in s && '>' !in s && '"' !in s
    ensures Esc(s) == s
  {
    ReplaceAllFacts(s, '&', "&amp;");
    ReplaceAllFacts(s, '<', "&lt;");
    ReplaceAllFacts(s, '>', "&gt;");
    ReplaceAllFacts(s, '"', "&quot;");
  }

  // ---------------------------------------------------------------------------
  // Which pages are gated
  // ---------------------------------------------------------------------------

  const PublicPaths: seq<string> := ["/", "/index.html", "/privacy.html", "/privacy", "/old-index.html"]

  /** `.replace(/\/+$/, '')`: every trailing slash goes. */
  function StripTrailingSlashes(p: string): string {
    if p != [] && p[|p| - 1] == '/' then StripTrailingSlashes(p[..|p| - 1]) else p
  }

  /** The path `boot` compares: trailing slashes stripped, and "/" when nothing is left. */
  function NormalizePath(path: string): string {
    var q := StripTrailingSlashes(path);
    if q == "" then "/" else q
  }

  /** Public pages are never gated. */
  predicate IsPublic(path: string) {
    NormalizePath(path) in PublicPaths
  }

  /** Stripping leaves no trailing slash, and what it removed was slashes only. */
  lemma {:induction false} StripShape(p: string)
    ensures StripTrailingSlashes(p) == [] || StripTrailingSlashes(p)[|StripTrailingSlashes(p)| - 1] != '/'
    ensures |StripTrailingSlashes(p)| <= |p| && p[..|StripTrailingSlashes(p)|] == StripTrailingSlashes(p)
    ensures forall i :: |StripTrailingSlashes(p)| <= i < |p| ==> p[i] == '/'
  {
    if p != [] && p[|p| - 1] == '/' {
      var init := p[..|p| - 1];
      StripShape(init);
      var q := StripTrailingSlashes(init);
      assert p[..|q|] == init[..|q|];
      assert forall i :: |q| <= i < |init| ==> p[i] == init[i];
    }
  }

  /** The normalised path is never empty and ends in a slash only when it is "/"; normalising again changes nothing. */
  lemma NormalizePathSpec(path: string)
    ensures NormalizePath(path) != ""
    ensures NormalizePath(path) == "/" || NormalizePath(path)[|NormalizePath(path)| - 1] != '/'
    ensures NormalizePath(NormalizePath(path)) == NormalizePath(path)
  {
    StripShape(path);
    var q := StripTrailingSlashes(path);
    if q == "" {
      assert StripTrailingSlashes("/") == StripTrailingSlashes("");
    }
  }

  /** One more trailing slash never changes whether a page is gated. */
  lemma TrailingSlashIgnored(path: string)
    ensures IsPublic(path + "/") == IsPublic(path)
  {
    var p := path + "/";
    assert p[..|p| - 1] == path;
  }

  /** A path of slashes only, the empty one included, is the home page, and public. */
  lemma SlashesAreHome(path: string)
    requires forall i :: 0 <= i < |path| ==> path[i] == '/'
    ensures NormalizePath(path) == "/" && IsPublic(path)
  {
    StripShape(path);
  }

  // ---------------------------------------------------------------------------
  // Settings and validation
  // ---------------------------------------------------------------------------

  /**
   * `getSetting(key, fallback)`: the value of the `dataroom_settings` row when
   * the client exists and the single-row query returns a non-empty value;
   * `row` is None when the query gives no row, several rows, an error or a null value.
   */
  function GetSetting(connected: bool, row: Option<string>, fallback: string): (v: string)
    ensures v == fallback || (connected && row == Some(v) && v != "")
    ensures connected && row.Some? && row.value != "" ==> v == row.value
  {
    if connected && row.Some? && row.value != "" then row.value else fallback
  }

  datatype Visitor = Visitor(email: string, name: string, company: string)

  /** `{ ok, visitor }` or `{ ok: false, msg }`. */
  datatype AuthResult = Ok(visitor: Visitor) | Fail(msg: string)

  const NotConfiguredMessage := "System not configured."
  const InvalidCodeMessage := "Invalid email or access code."
  const RevokedMessage := "Access has been revoked. Contact ReDewable."
  const ConnectionMessage := "Connection error. Please try again."
  const NoPasswordMessage := "Access not configured. Contact ReDewable."
  const WrongPasswordMessage := "Incorrect password."
  const EmailMissingMessage := "Please enter your email."
  const NameMissingMessage := "Please enter your name."

  /** One row of `investor_visitors`. */
  datatype VisitorRow = VisitorRow(name: string, email: string, company: string, accessCode: string, isActive: bool)

  /** What the gate can reach: whether a client exists and answers, the visitors table, and the `investor_shared_password` row. */
  datatype Backend = Backend(connected: bool, reachable: bool, visitors: seq<VisitorRow>, sharedPassword: Option<string>)

  /** The rows the `.eq('email', …).eq('access_code', …)` query selects, in table order. */
  function Matches(rows: seq<VisitorRow>, email: string, code: string): seq<VisitorRow> {
    if rows == [] then []
    else (if rows[0].email == email && rows[0].accessCode == code then [rows[0]] else []) + Matches(rows[1..], email, code)
  }

  /** The query selects exactly the rows with that email and code. */
  lemma {:induction false} MatchesSpec(rows: seq<VisitorRow>, email: string, code: string, r: VisitorRow)
    ensures r in Matches(rows, email, code) <==> r in rows && r.email == email && r.accessCode == code
  {
    if rows != [] {
      MatchesSpec(rows[1..], email, code, r);
      assert rows == [rows[0]] + rows[1..];
    }
  }

  /**
   * `validateCode`: the email is lower-cased then trimmed, the code trimmed;
   * `.single()` fails unless exactly one row matches, and an inactive row is
   * refused. A client that does not answer is `reachable == false`.
   */
  function ValidateCode(b: Backend, email: string, code: string): AuthResult {
    if !b.connected then Fail(NotConfiguredMessage)
    else if !b.reachable then Fail(ConnectionMessage)
    else
      var m := Matches(b.visitors, Trim(Lower(email)), Trim(code));
      if |m| != 1 then Fail(InvalidCodeMessage)
      else if !m[0].isActive then Fail(RevokedMessage)
      else Ok(Visitor(m[0].email, m[0].name, m[0].company))
  }

  /** A code is accepted only for an active row of the table whose email and code match the normalised input, and it yields that row's visitor. */
  lemma ValidateCodeSound(b: Backend, email: string, code: string)
    requires ValidateCode(b, email, code).Ok?
    ensures exists r :: (r in b.visitors && r.email == Lower(Trim(email)) && r.accessCode == Trim(code) && r.isActive &&
                         ValidateCode(b, email, code).visitor == Visitor(r.email, r.name, r.company))
  {
    var m := Matches(b.visitors, Trim(Lower(email)), Trim(code));
    MatchesSpec(b.visitors, Trim(Lower(email)), Trim(code), m[0]);
    TrimLower(email);
  }

  /** Rows of which none has that email and code select nothing. */
  lemma {:induction false} MatchesNone(rows: seq<VisitorRow>, email: string, code: string)
    requires forall i :: 0 <= i < |rows| ==> !(rows[i].email == email && rows[i].accessCode == code)
    ensures Matches(rows, email, code) == []
  {
    if rows != [] {
      MatchesNone(rows[1..], email, code);
    }
  }

  /** When exactly one row, the `k`-th, has that email and code, the query selects that row alone. */
  lemma {:induction false} MatchesOne(rows: seq<VisitorRow>, email: string, code: string, k: nat)
    requires k < |rows| && rows[k].email == email && rows[k].accessCode == code
    requires forall i :: 0 <= i < |rows| && i != k ==> !(rows[i].email == email && rows[i].accessCode == code)
    ensures Matches(rows, email, code) == [rows[k]]
  {
    if k == 0 {
      MatchesNone(rows[1..], email, code);
    } else {
      MatchesOne(rows[1..], email, code, k - 1);
    }
  }

  /**
   * The converse of ValidateCodeSound: when the client answers and exactly one
   * row has the normalised email and code, an active row is accepted with its
   * visitor and an inactive one is refused as revoked.
   */
  lemma ValidateCodeComplete(b: Backend, email: string, code: string, k: nat)
    requires b.connected && b.reachable
    requires k < |b.visitors| && b.visitors[k].email == Lower(Trim(email)) && b.visitors[k].accessCode == Trim(code)
    requires forall i :: 0 <= i < |b.visitors| && i != k ==> !(b.visitors[i].email == Lower(Trim(email)) && b.visitors[i].accessCode == Trim(code))
    ensures b.visitors[k].isActive ==> ValidateCode(b, email, code) == Ok(Visitor(b.visitors[k].email, b.visitors[k].name, b.visitors[k].company))
    ensures !b.visitors[k].isActive ==> ValidateCode(b, email, code) == Fail(RevokedMessage)
  {
    TrimLower(email);
    MatchesOne(b.visitors, Lower(Trim(email)), Trim(code), k);
  }

  /** The email's case and surrounding whitespace do not matter to the code check. */
  lemma ValidateCodeIgnoresEmailForm(b: Backend, email: string, code: string)
    ensures ValidateCode(b, Lower(Trim(email)), code) == ValidateCode(b, email, code)
  {
    var n := Lower(Trim(email));
    LowerShape(Trim(email));
    LowerOfLower(n);
    TrimLower(Trim(email));
    TrimIdempotent(email);
    TrimLower(email);
    assert Trim(Lower(n)) == Trim(Lower(email));
  }

  /** `validatePassword`, given what `getSetting('investor_shared_password', '')` returned. */
  function ValidatePassword(stored: string, email: string, name: string, company: string, password: string): AuthResult {
    if stored == "" then Fail(NoPasswordMessage)
    else if Trim(password) != Trim(stored) then Fail(WrongPasswordMessage)
    else Ok(Visitor(Trim(email), Trim(name), Trim(company)))
  }

  /** Accepted exactly when a password is configured and equal to the one entered after trimming both; the visitor's fields come back trimmed. */
  lemma ValidatePasswordSpec(stored: string, email: string, name: string, company: string, password: string)
    ensures ValidatePassword(stored, email, name, company, password).Ok? <==> stored != "" && Trim(password) == Trim(stored)
    ensures stored == "" ==> ValidatePassword(stored, email, name, company, password) == Fail(NoPasswordMessage)
    ensures ValidatePassword(stored, email, name, company, password).Ok? ==>
      var v := ValidatePassword(stored, email, name, company, password).visitor;
      Trim(v.email) == v.email && Trim(v.name) == v.name && Trim(v.company) == v.company
  {
    TrimIdempotent(email);
    TrimIdempotent(name);
    TrimIdempotent(company);
  }

  /** A configured password made of whitespace only is matched by an empty password. */
  lemma BlankPasswordMatchesBlank(stored: string, email: string, name: string, company: string)
    requires stored != "" && AllWhitespace(stored)
    ensures ValidatePassword(stored, email, name, company, "").Ok?
  {
    TrimShape(stored);
    TrimShape("");
  }

  /** `validateOpen`: identity only, trimmed. */
  function ValidateOpen(email: string, name: string, company: string): (r: AuthResult)
    ensures r.Ok? && r.visitor == Visitor(Trim(email), Trim(name), Trim(company))
  {
    Ok(Visitor(Trim(email), Trim(name), Trim(company)))
  }

  // ---------------------------------------------------------------------------
  // The form and the submit decision
  // ---------------------------------------------------------------------------

  /** Which inputs `buildModal(mode)` shows. */
  datatype Fields = Fields(name: bool, company: bool, email: bool, code: bool, password: bool)

  function FormFields(mode: string): Fields {
    Fields(mode != "code", mode != "code", true, mode == "code", mode == "password")
  }

  /** Email always; name and company exactly outside code mode; never both a code and a password field. */
  lemma FormFieldsSpec(mode: string)
    ensures FormFields(mode).email
    ensures FormFields(mode).name == FormFields(mode).company == !FormFields(mode).code
    ensures !(FormFields(mode).code && FormFields(mode).password)
    ensures FormFields(mode).password ==> FormFields(mode).name
  {
  }

  /** What was typed into the inputs (a missing input reads as ""). */
  datatype Form = Form(email: string, name: string, company: string, code: string, password: string)

  /** `(overlay.querySelector('#ig…') || {}).value || ''`: an input the modal does not show reads as "". */
  function ReadForm(f: Fields, typed: Form): Form {
    Form(
      if f.email then typed.email else "",
      if f.name then typed.name else "",
      if f.company then typed.company else "",
      if f.code then typed.code else "",
      if f.password then typed.password else "")
  }

  /**
   * The decision of `handleSubmit`: an empty email stops first; code mode
   * checks the code; password mode first requires a name; every other mode
   * string, compared exactly, collects identity only.
   */
  function SubmitDecision(mode: string, form: Form, b: Backend): AuthResult {
    if form.email == "" then Fail(EmailMissingMessage)
    else if mode == "code" then ValidateCode(b, form.email, form.code)
    else if mode == "password" then
      if form.name == "" then Fail(NameMissingMessage)
      else ValidatePassword(GetSetting(b.connected, b.sharedPassword, ""), form.email, form.name, form.company, form.password)
    else ValidateOpen(form.email, form.name, form.company)
  }

  /** The checks in order: no email fails before anything else, password mode without a name fails before the password is read. */
  lemma SubmitOrder(mode: string, form: Form, b: Backend)
    ensures form.email == "" ==> SubmitDecision(mode, form, b) == Fail(EmailMissingMessage)
    ensures form.email != "" && mode == "password" && form.name == "" ==> SubmitDecision(mode, form, b) == Fail(NameMissingMessage)
    ensures form.email != "" && mode != "code" && mode != "password" ==> SubmitDecision(mode, form, b).Ok?
  {
  }

  /** The decision never depends on an input the modal hides: each mode reads only the fields it shows. */
  lemma HiddenFieldsUnused(mode: string, typed: Form, b: Backend)
    ensures SubmitDecision(mode, ReadForm(FormFields(mode), typed), b) == SubmitDecision(mode, typed, b)
  {
  }

  /** The mode is compared without trimming or lower-casing: `Password` or `code ` gates by identity only. */
  lemma UnnormalizedModeIsOpen(form: Form, b: Backend)
    requires form.email != ""
    ensures SubmitDecision("Password", form, b) == ValidateOpen(form.email, form.name, form.company)
    ensures SubmitDecision("code ", form, b) == ValidateOpen(form.email, form.name, form.company)
  {
    assert "Password" != "password" && "code " != "code";
  }

  // ---------------------------------------------------------------------------
  // Tracking inputs
  // ---------------------------------------------------------------------------

  /** A `section[id]` and its bounding box. */
  datatype SectionBox = SectionBox(id: string, top: int, bottom: int)

  /** What `trackScroll` and `trackSections` read from the page, in whole pixels. */
  datatype Viewport = Viewport(scrollY: nat, innerHeight: nat, docHeight: nat, sections: seq<SectionBox>)

  /**
   * `Math.min(100, Math.round(scrolled / docH * 100))`, in exact arithmetic;
   * None for a zero-height page scrolled by zero (NaN, which never raises the
   * maximum), and 100 for a zero-height page otherwise (Infinity).
   */
  function ScrollPercent(v: Viewport): Option<int> {
    var scrolled := v.scrollY + v.innerHeight;
    if v.docHeight == 0 then (if scrolled == 0 then None else Some(100))
    else
      var rounded := (200 * scrolled + v.docHeight) / (2 * v.docHeight);
      Some(if rounded < 100 then rounded else 100)
  }

  /** A percentage is between 0 and 100, and a page seen to its bottom counts as 100. */
  lemma ScrollPercentSpec(v: Viewport)
    ensures ScrollPercent(v).Some? ==> 0 <= ScrollPercent(v).value <= 100
    ensures v.docHeight > 0 && v.scrollY + v.innerHeight >= v.docHeight ==> ScrollPercent(v) == Some(100)
  {
    if v.docHeight > 0 && v.scrollY + v.innerHeight >= v.docHeight {
      var d := v.docHeight;
      var s := v.scrollY + v.innerHeight;
      DivAtLeast(200 * s + d, 2 * d, 100);
    }
  }

  /** `rect.top < window.innerHeight && rect.bottom > 0`. */
  predicate InView(s: SectionBox, innerHeight: int) {
    s.top < innerHeight && s.bottom > 0
  }

  /** The ids of the sections in view. */
  function VisibleIds(secs: seq<SectionBox>, innerHeight: int): set<string> {
    if secs == [] then {}
    else
      var last := secs[|secs| - 1];
      VisibleIds(secs[..|secs| - 1], innerHeight) + (if InView(last, innerHeight) then {last.id} else {})
  }

  /** An id is collected exactly when some section with that id is in view. */
  lemma {:induction false} VisibleIdsSpec(secs: seq<SectionBox>, innerHeight: int, id: string)
    ensures id in VisibleIds(secs, innerHeight) <==> exists i :: 0 <= i < |secs| && InView(secs[i], innerHeight) && secs[i].id == id
  {
    if secs != [] {
      var init := secs[..|secs| - 1];
      VisibleIdsSpec(init, innerHeight, id);
      if id in VisibleIds(init, innerHeight) {
        var i :| 0 <= i < |init| && InView(init[i], innerHeight) && init[i].id == id;
        assert secs[i] == init[i];
      }
      if exists i :: 0 <= i < |secs| && InView(secs[i], innerHeight) && secs[i].id == id {
        var i :| 0 <= i < |secs| && InView(secs[i], innerHeight) && secs[i].id == id;
        if i < |init| {
          assert init[i] == secs[i];
        }
      }
    }
  }

  // ---------------------------------------------------------------------------
  // The stored session
  // ---------------------------------------------------------------------------

  /** The record under the session key, when there is one that parses (`if (!raw) return null`, then `JSON.parse`). */
  function StoredRecord(st: Store): Option<SessionRecord> {
    if SessionKey in st && st[SessionKey] != "" then ParseSession(st[SessionKey]) else None
  }

  /** `Date.now() - s.ts > SESSION_TTL`: strictly older than seven days. */
  predicate Expired(r: SessionRecord, now: int) {
    now - r.ts > SessionTtl
  }

  /** A session written at `ts` reads back until exactly seven days later and is expired one millisecond after. */
  lemma ExpiryBoundary(r: SessionRecord)
    ensures !Expired(r, r.ts + SessionTtl)
    ensures Expired(r, r.ts + SessionTtl + 1)
    ensures SessionTtl == 604800000
  {
  }

  /** After a write, the stored record is exactly the one written. */
  lemma WrittenRecordReadsBack(st: Store, r: SessionRecord)
    ensures StoredRecord(st[SessionKey := EncodeSession(r)]) == Some(r)
  {
    EncodedSessionNotEmpty(r);
    SessionRoundTrip(r);
  }

  // ---------------------------------------------------------------------------
  // The page state
  // ---------------------------------------------------------------------------

  /** The store after `getSession` at time `now`: an expired record is removed, anything else kept. */
  function StoreAfterRead(st: Store, now: int): Store {
    if StoredRecord(st).Some? && Expired(StoredRecord(st).value, now) then st - {SessionKey} else st
  }

  /** The deepest scroll after one `trackScroll` on `v`, from the maximum `m`: raised to the page's percentage when that is larger. */
  function RaisedMax(m: int, v: Viewport): int {
    if ScrollPercent(v).Some? && ScrollPercent(v).value > m then ScrollPercent(v).value else m
  }

  /** `boot`'s ways out. */
  datatype BootResult = PublicPage | GateDisabled | Resumed | Gated(mode: string)

  class Gate {
    /** localStorage. */
    var local: Store
    var visitor: Option<Visitor>
    /** The deepest scroll percentage seen. */
    var maxScroll: int
    var sectionsViewed: set<string>
    /** How many scroll listeners `startTracking` registered. */
    var scrollListeners: nat

    /** The script's start: no visitor, nothing tracked. */
    constructor (local: Store)
      ensures this.local == local && visitor == None
      ensures maxScroll == 0 && sectionsViewed == {} && scrollListeners == 0
    {
      this.local := local;
      visitor := None;
      maxScroll := 0;
      sectionsViewed := {};
      scrollListeners := 0;
    }

    /** `getSession`: the stored record unless it is older than the TTL, in which case it is also removed. */
    method GetSession(now: int) returns (s: Option<SessionRecord>)
      modifies `local
      ensures s.Some? <==> StoredRecord(old(local)).Some? && !Expired(StoredRecord(old(local)).value, now)
      ensures s.Some? ==> s == StoredRecord(old(local))
      ensures local == StoreAfterRead(old(local), now)
    {
      if SessionKey !in local || local[SessionKey] == "" {
        return None;
      }
      var parsed := ParseSession(local[SessionKey]);
      if parsed.None? {
        return None;
      }
      if now - parsed.value.ts > SessionTtl {
        local := local - {SessionKey};
        return None;
      }
      return parsed;
    }

    /** `setSession`: the visitor's email, name and company with the write time. */
    method SetSession(v: Visitor, now: nat)
      modifies `local
      ensures local == old(local)[SessionKey := EncodeSession(SessionRecord(v.email, v.name, v.company, now))]
    {
      local := local[SessionKey := EncodeSession(SessionRecord(v.email, v.name, v.company, now))];
    }

    /** `clearSession`. */
    method ClearSession()
      modifies `local
      ensures local == old(local) - {SessionKey}
      ensures StoredRecord(local) == None
    {
      local := local - {SessionKey};
    }

    /** `trackScroll`: the maximum only rises, and never past 100. */
    method TrackScroll(v: Viewport)
      modifies `maxScroll
      ensures old(maxScroll) <= maxScroll
      ensures old(maxScroll) <= 100 ==> maxScroll <= 100
      ensures maxScroll == old(maxScroll) || ScrollPercent(v) == Some(maxScroll)
      ensures ScrollPercent(v).Some? ==> ScrollPercent(v).value <= maxScroll
      ensures maxScroll == RaisedMax(old(maxScroll), v)
    {
      ScrollPercentSpec(v);
      var pct := ScrollPercent(v);
      if pct.Some? && pct.value > maxScroll {
        maxScroll := pct.value;
      }
    }

    /** `trackSections`: every section in view is added; nothing is removed. */
    method TrackSections(v: Viewport)
      modifies `sectionsViewed
      ensures sectionsViewed == old(sectionsViewed) + VisibleIds(v.sections, v.innerHeight)
      ensures old(sectionsViewed) <= sectionsViewed
    {
      var secs := v.sections;
      var i := 0;
      while i < |secs|
        invariant 0 <= i <= |secs|
        invariant sectionsViewed == old(sectionsViewed) + VisibleIds(secs[..i], v.innerHeight)
      {
        assert secs[..i + 1][..i] == secs[..i];
        if secs[i].top < v.innerHeight && secs[i].bottom > 0 {
          sectionsViewed := sectionsViewed + {secs[i].id};
        }
        i := i + 1;
      }
      assert secs[..|secs|] == secs;
    }

    /** `startTracking`: registers the scroll listener, then records the scroll depth and the sections in view once. */
    method StartTracking(v: Viewport)
      modifies `scrollListeners, `maxScroll, `sectionsViewed
      ensures scrollListeners == old(scrollListeners) + 1
      ensures old(maxScroll) <= maxScroll && (old(maxScroll) <= 100 ==> maxScroll <= 100)
      ensures ScrollPercent(v).Some? ==> ScrollPercent(v).value <= maxScroll
      ensures maxScroll == RaisedMax(old(maxScroll), v)
      ensures sectionsViewed == old(sectionsViewed) + VisibleIds(v.sections, v.innerHeight)
    {
      scrollListeners := scrollListeners + 1;
      TrackScroll(v);
      TrackSections(v);
    }

    /**
     * `handleSubmit`: the decision on the inputs the modal shows; on success
     * the visitor is set, the session written with the current time and
     * tracking started; on failure nothing changes but the message shown.
     */
    method HandleSubmit(mode: string, typed: Form, b: Backend, now: nat, v: Viewport) returns (r: AuthResult)
      modifies `visitor, `local, `scrollListeners, `maxScroll, `sectionsViewed
      ensures r == SubmitDecision(mode, ReadForm(FormFields(mode), typed), b)
      ensures r.Fail? ==> visitor == old(visitor) && local == old(local) && scrollListeners == old(scrollListeners)
      ensures r.Fail? ==> maxScroll == old(maxScroll) && sectionsViewed == old(sectionsViewed)
      ensures r.Ok? ==> maxScroll == RaisedMax(old(maxScroll), v) && sectionsViewed == old(sectionsViewed) + VisibleIds(v.sections, v.innerHeight)
      ensures r.Ok? ==> visitor == Some(r.visitor) && scrollListeners == old(scrollListeners) + 1
      ensures r.Ok? ==> local == old(local)[SessionKey := EncodeSession(SessionRecord(r.visitor.email, r.visitor.name, r.visitor.company, now))]
    {
      var form := ReadForm(FormFields(mode), typed);
      if form.email == "" {
        return Fail(EmailMissingMessage);
      }
      if mode == "code" {
        r := ValidateCode(b, form.email, form.code);
      } else if mode == "password" {
        if form.name == "" {
          return Fail(NameMissingMessage);
        }
        var stored := GetSetting(b.connected, b.sharedPassword, "");
        r := ValidatePassword(stored, form.email, form.name, form.company, form.password);
      } else {
        r := ValidateOpen(form.email, form.name, form.company);
      }
      if r.Fail? {
        return r;
      }
      visitor := Some(r.visitor);
      SetSession(r.visitor, now);
      StartTracking(v);
    }

    /**
     * `boot`: public pages and pages without a configured client are left
     * alone; a live session with an email resumes; otherwise the gate is
     * shown in the configured mode (`code` when unset).
     */
    method Boot(path: string, sdkLoaded: bool, configured: bool, now: int, modeRow: Option<string>, v: Viewport) returns (b: BootResult)
      modifies `visitor, `local, `scrollListeners, `maxScroll, `sectionsViewed
      ensures IsPublic(path) ==> b == PublicPage
      ensures !IsPublic(path) && !(sdkLoaded && configured) ==> b == GateDisabled
      ensures b == PublicPage || b == GateDisabled ==>
        local == old(local) && visitor == old(visitor) && maxScroll == old(maxScroll)
        && sectionsViewed == old(sectionsViewed) && scrollListeners == old(scrollListeners)
      ensures b == Resumed ==>
        var r := StoredRecord(old(local));
        r.Some? && !Expired(r.value, now) && r.value.email != ""
        && visitor == Some(Visitor(r.value.email, r.value.name, r.value.company))
        && scrollListeners == old(scrollListeners) + 1 && local == old(local)
        && maxScroll == RaisedMax(old(maxScroll), v) && sectionsViewed == old(sectionsViewed) + VisibleIds(v.sections, v.innerHeight)
      ensures b.Gated? ==> b.mode == GetSetting(true, modeRow, "code") && visitor == old(visitor)
      ensures b.Gated? ==>
        local == StoreAfterRead(old(local), now) && maxScroll == old(maxScroll)
        && sectionsViewed == old(sectionsViewed) && scrollListeners == old(scrollListeners)
      ensures !IsPublic(path) && sdkLoaded && configured ==>
        (b.Resumed? <==> StoredRecord(old(local)).Some? && !Expired(StoredRecord(old(local)).value, now) && StoredRecord(old(local)).value.email != "")
    {
      var normalized := NormalizePath(path);
      if normalized in PublicPaths {
        return PublicPage;
      }
      if !sdkLoaded || !configured {
        return GateDisabled;
      }
      var session := GetSession(now);
      if session.Some? && session.value.email != "" {
        var s := session.value;
        visitor := Some(Visitor(s.email, s.name, s.company));
        StartTracking(v);
        return Resumed;
      }
      var mode := GetSetting(true, modeRow, "code");
      return Gated(mode);
    }
  }

  /** A session written now reads back, with the same fields and write time, for seven days; after that it is gone from storage. */
  method SessionLifetime(local: Store, v: Visitor, written: nat, later: int) returns (s: Option<SessionRecord>, kept: bool)
    ensures later - written <= SessionTtl ==> s == Some(SessionRecord(v.email, v.name, v.company, written)) && kept
    ensures later - written > SessionTtl ==> s == None && !kept
  {
    var gate := new Gate(local);
    gate.SetSession(v, written);
    WrittenRecordReadsBack(local, SessionRecord(v.email, v.name, v.company, written));
    s := gate.GetSession(later);
    kept := SessionKey in gate.local;
  }
}
