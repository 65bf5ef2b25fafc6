/**
 * The data room page's module-level state (dataroom.app.js) as one object:
 * the settings snapshot, the documents and notes, localStorage, the page's
 * query parameters, and the handles that the start functions guard on. Each
 * method performs the page's steps and is proved against the functions of
 * DataRoomAccess and DataRoomCatalog.
 */
module DataRoomApp {
  import opened Wrappers
  import opened Text
  import opened DataRoomAccess
  import opened DataRoomCatalog

  /** One row of `dataroom_notes` (the fields the notes list shows). */
  datatype Note = Note(section: string, author: string, date: string, content: string)

  /** The identified visitor (`visitorInfo`). */
  datatype Visitor = Visitor(name: string, email: string, company: string)

  /** `currentView`. */
  datatype View = Dashboard | SectionView

  /** The localStorage key of the identified visitor. */
  const VisitorKey := "redew_visitor"

  /** The parameters `maybeAutoUnlockFromLink` strips after an unlock. */
  const CredentialParams: seq<string> := ["pw", "access", "token"]

  /** Some of `names` occurs in the query. */
  predicate Mentions(q: Query, names: seq<string>) {
    exists p :: p in names && p in q
  }

  /**
   * How many times `enforceAccessRules` rewrites the address: once when its
   * link auto-unlock runs (the status does not block and the mode is not
   * open) and finds a matching credential, otherwise never.
   */
  function EnforceRewrites(p: Policy, q: Query): nat {
    if IsBlockingStatus(p.status) || p.mode == Open || LinkMatch(p, q).None? then 0 else 1
  }

  /** The credential parameters, as a set. */
  lemma CredentialParamSet()
    ensures (set p | p in CredentialParams) == {"pw", "access", "token"}
  {
  }

  class DataRoom {
    /** Whether a Supabase client exists (`supabase`); the load and start functions do nothing without one. */
    const connected: bool
    var settings: Settings
    var documents: seq<Doc>
    var notes: seq<Note>
    /** localStorage. */
    var local: Store
    /** The query parameters of `window.location`. */
    var query: Query
    /** How many times `history.replaceState` rewrote the address. */
    var historyWrites: nat
    var visitor: Option<Visitor>
    var sessionId: Option<string>
    /** Whether `realtimeSubscription` holds a channel. */
    var realtimeSubscription: bool
    /** `pollingTimer`: the interval handle, if polling. */
    var pollingTimer: Option<nat>
    /** How many visibilitychange/online listener pairs calling `refreshAll` are registered. */
    var refreshListeners: nat
    var currentView: View
    var currentSection: Option<Section>
    var docSearchTerm: string

    /** The state when the script starts: empty snapshot and lists, no handles. */
    constructor (connected: bool, local: Store, query: Query, visitor: Option<Visitor>)
      ensures this.connected == connected && this.local == local && this.query == query && this.visitor == visitor
      ensures settings == map[] && documents == [] && notes == []
      ensures historyWrites == 0 && sessionId == None && !realtimeSubscription
      ensures pollingTimer == None && refreshListeners == 0
      ensures currentView == Dashboard && currentSection == None && docSearchTerm == ""
    {
      this.connected := connected;
      this.local := local;
      this.query := query;
      this.visitor := visitor;
      settings := map[];
      documents := [];
      notes := [];
      historyWrites := 0;
      sessionId := None;
      realtimeSubscription := false;
      pollingTimer := None;
      refreshListeners := 0;
      currentView := Dashboard;
      currentSection := None;
      docSearchTerm := "";
    }

    // -------------------------------------------------------------------------
    // Loading (query results are inputs; None is a result without data)
    // -------------------------------------------------------------------------

    /** `loadSettings`: with data, the snapshot is rebuilt from nothing, row by row. */
    method LoadSettings(res: Option<seq<Row>>)
      modifies `settings
      ensures settings == if connected && res.Some? then Snapshot(res.value) else old(settings)
    {
      if !connected {
        return;
      }
      if res.Some? {
        var rows := res.value;
        settings := map[];
        var i := 0;
        while i < |rows|
          invariant 0 <= i <= |rows|
          invariant settings == Snapshot(rows[..i])
        {
          assert rows[..i + 1][..i] == rows[..i];
          settings := settings[rows[i].key := rows[i].value];
          i := i + 1;
        }
        assert rows[..|rows|] == rows;
      }
    }

    /** `loadDocuments`: the visible documents in sort order, as the query returns them. */
    method LoadDocuments(res: Option<seq<Doc>>)
      modifies `documents
      ensures documents == if connected && res.Some? then res.value else old(documents)
    {
      if !connected {
        return;
      }
      if res.Some? {
        documents := res.value;
      }
    }

    /** `loadNotes`. */
    method LoadNotes(res: Option<seq<Note>>)
      modifies `notes
      ensures notes == if connected && res.Some? then res.value else old(notes)
    {
      if !connected {
        return;
      }
      if res.Some? {
        notes := res.value;
      }
    }

    // -------------------------------------------------------------------------
    // The unlock-proof store
    // -------------------------------------------------------------------------

    /** `isUnlocked`, which reads the store and changes nothing. */
    method IsUnlockedNow() returns (b: bool)
      ensures b == IsUnlocked(PolicyOf(settings), local)
    {
      var p := PolicyOf(settings);
      b := HasUnlock(p);
    }

    /** The body of `isUnlocked`, under the credentials of `p`. */
    method HasUnlock(p: Policy) returns (b: bool)
      ensures b == IsUnlocked(p, local)
    {
      if p.mode == Open {
        return true;
      }
      if p.mode == Token {
        if p.token == "" {
          return false;
        }
        return HasProof(local, TokenProofKey(p));
      }
      if p.token != "" && HasProof(local, TokenProofKey(p)) {
        return true;
      }
      if p.password != "" && HasProof(local, PasswordProofKey(p)) {
        return true;
      }
      return false;
    }

    /** `clearUnlock`: removes the current password proof, the current token proof and the v1 flag. */
    method ClearUnlock()
      modifies `local
      ensures local == Cleared(PolicyOf(settings), old(local))
    {
      var p := PolicyOf(settings);
      ClearProofs(p);
    }

    /** The three removals of `clearUnlock`, for the credentials of `p`. */
    method ClearProofs(p: Policy)
      modifies `local
      ensures local == Cleared(p, old(local))
    {
      if p.password != "" {
        local := local - {PasswordProofKey(p)};
      }
      if p.token != "" {
        local := local - {TokenProofKey(p)};
      }
      local := local - {LegacyProofKey};
    }

    /** `setUnlocked(val, modeUsed)`; `modeUsed == None` means the configured mode. */
    method SetUnlocked(val: bool, modeUsed: Option<Mode>)
      modifies `local
      ensures val ==> local == Unlocked(PolicyOf(settings), old(local), modeUsed)
      ensures !val ==> local == Cleared(PolicyOf(settings), old(local))
    {
      if !val {
        ClearUnlock();
        return;
      }
      var p := PolicyOf(settings);
      WriteProof(p, modeUsed);
    }

    /** The `val == true` half of `setUnlocked`, for the credentials of `p`. */
    method WriteProof(p: Policy, modeUsed: Option<Mode>)
      modifies `local
      ensures local == Unlocked(p, old(local), modeUsed)
    {
      if modeUsed.GetOr(p.mode) == Token {
        if p.token != "" {
          local := local[TokenProofKey(p) := "true"];
        }
        return;
      }
      if p.password != "" {
        local := local[PasswordProofKey(p) := "true"];
      }
    }

    // -------------------------------------------------------------------------
    // The address bar and the link auto-unlock
    // -------------------------------------------------------------------------

    /** `cleanUrlParams`: drops every listed parameter, and rewrites the address only if one was present. */
    method CleanUrlParams(params: seq<string>)
      modifies `query, `historyWrites
      ensures query == old(query) - (set p | p in params)
      ensures historyWrites == old(historyWrites) + (if Mentions(old(query), params) then 1 else 0)
    {
      var url := query;
      var changed := false;
      var i := 0;
      while i < |params|
        invariant 0 <= i <= |params|
        invariant url == query - (set p | p in params[..i])
        invariant changed <==> Mentions(query, params[..i])
      {
        assert params[..i + 1] == params[..i] + [params[i]];
        if params[i] in url {
          url := url - {params[i]};
          changed := true;
        }
        i := i + 1;
      }
      assert params[..|params|] == params;
      if !changed {
        return;
      }
      query := url;
      historyWrites := historyWrites + 1;
    }

    /** `maybeAutoUnlockFromLink`: a matching link writes its proof and is stripped from the address. */
    method MaybeAutoUnlockFromLink()
      modifies `local, `query, `historyWrites
      ensures local == LinkStore(PolicyOf(settings), old(local), old(query))
      ensures query == LinkQuery(PolicyOf(settings), old(query))
      ensures historyWrites == old(historyWrites) + (if LinkMatch(PolicyOf(settings), old(query)).Some? then 1 else 0)
    {
      var p := PolicyOf(settings);
      LinkUnlock(p);
    }

    /** The body of `maybeAutoUnlockFromLink`, for the credentials of `p`. */
    method LinkUnlock(p: Policy)
      modifies `local, `query, `historyWrites
      ensures local == LinkStore(p, old(local), old(query))
      ensures query == LinkQuery(p, old(query))
      ensures historyWrites == old(historyWrites) + (if LinkMatch(p, old(query)).Some? then 1 else 0)
    {
      var pwParam := PwParam(query);
      var tokenParam := TokenParam(query);
      var unlocked := false;
      if p.token != "" && tokenParam != "" && tokenParam == p.token {
        WriteProof(p, Some(Token));
        unlocked := true;
      }
      if !unlocked && p.password != "" && pwParam != "" && pwParam == p.password {
        WriteProof(p, Some(Password));
        unlocked := true;
      }
      if unlocked {
        LinkNamesParam(query);
        CredentialParamSet();
        CleanUrlParams(CredentialParams);
      }
    }

    /** `enforceAccessRules`: the decision, with the link auto-unlock it runs on the way. */
    method EnforceAccessRules() returns (allowed: bool, outcome: Outcome)
      modifies `local, `query, `historyWrites
      ensures (outcome, local, query) == Enforce(PolicyOf(settings), old(local), old(query))
      ensures allowed <==> outcome == Authorized
      ensures historyWrites == old(historyWrites) + EnforceRewrites(PolicyOf(settings), old(query))
    {
      var p := PolicyOf(settings);
      allowed, outcome := Decide(p);
    }

    /** The body of `enforceAccessRules`, under the policy `p`. */
    method Decide(p: Policy) returns (allowed: bool, outcome: Outcome)
      modifies `local, `query, `historyWrites
      ensures (outcome, local, query) == Enforce(p, old(local), old(query))
      ensures allowed <==> outcome == Authorized
      ensures historyWrites == old(historyWrites) + EnforceRewrites(p, old(query))
    {
      if p.status == "disabled" || p.status == "maintenance" {
        return false, StatusBlocked(p.status);
      }
      if p.mode == Open {
        return true, Authorized;
      }
      LinkUnlock(p);
      if p.mode == Token {
        if p.token == "" {
          return false, Prompt(MisconfiguredPrompt, Token);
        }
        var unlocked := HasUnlock(p);
        if !unlocked {
          return false, Prompt(TokenPrompt, Token);
        }
        return true, Authorized;
      }
      if p.password != "" {
        var unlocked := HasUnlock(p);
        if !unlocked {
          return false, Prompt(PasscodePrompt, Password);
        }
      }
      return true, Authorized;
    }

    /** The `submit` closure of the access modal; `Proceed` is where the page goes on to `startApp`. */
    method Submit(rawEntered: string) returns (r: SubmitResult)
      modifies `local
      ensures (r, local) == Submission(PolicyOf(settings), old(local), rawEntered)
    {
      var p := PolicyOf(settings);
      r := SubmitWith(p, rawEntered);
    }

    /** The body of the `submit` closure, under the policy `p`. */
    method SubmitWith(p: Policy, rawEntered: string) returns (r: SubmitResult)
      modifies `local
      ensures (r, local) == Submission(p, old(local), rawEntered)
    {
      var entered := Trim(rawEntered);
      if p.mode == Open {
        return Proceed;
      }
      if p.mode == Token {
        if p.token == "" {
          return Rejected(NoTokenMessage);
        }
        if entered == p.token {
          WriteProof(p, Some(Token));
          return Proceed;
        }
        return Rejected(WrongTokenMessage);
      }
      if p.token != "" && entered == p.token {
        WriteProof(p, Some(Token));
        return Proceed;
      }
      if p.password == "" {
        return Proceed;
      }
      if entered == p.password {
        WriteProof(p, Some(Password));
        return Proceed;
      }
      return Rejected(WrongPasscodeMessage);
    }

    /**
     * The realtime handler for `dataroom_settings`: reload the snapshot, run the
     * link auto-unlock, then decide. The decision's own auto-unlock finds
     * nothing more to do, so the store and the address end as after one run.
     */
    method OnSettingsChanged(res: Option<seq<Row>>) returns (allowed: bool)
      modifies `settings, `local, `query, `historyWrites
      ensures settings == if connected && res.Some? then Snapshot(res.value) else old(settings)
      ensures local == LinkStore(PolicyOf(settings), old(local), old(query))
      ensures query == LinkQuery(PolicyOf(settings), old(query))
      ensures allowed <==> Evaluate(PolicyOf(settings), local) == Authorized
      ensures historyWrites == old(historyWrites) + (if LinkMatch(PolicyOf(settings), old(query)).Some? then 1 else 0)
    {
      LoadSettings(res);
      MaybeAutoUnlockFromLink();
      ghost var p := PolicyOf(settings);
      LinkIdempotent(p, old(local), old(query));
      var outcome;
      allowed, outcome := EnforceAccessRules();
    }

    // -------------------------------------------------------------------------
    // Start guards and logout
    // -------------------------------------------------------------------------

    /** `setupRealtimeSync`: subscribes once; while a channel is held it does nothing. */
    method SetupRealtimeSync()
      modifies `realtimeSubscription
      ensures realtimeSubscription == (old(realtimeSubscription) || connected)
      ensures old(realtimeSubscription) ==> realtimeSubscription
    {
      if !connected {
        return;
      }
      if realtimeSubscription {
        return;
      }
      realtimeSubscription := true;
    }

    /**
     * `startPolling` as written: while a timer is held it does nothing;
     * otherwise it starts one AND registers another pair of refresh listeners,
     * even when an earlier pair is still registered.
     */
    method StartPollingAsWritten(timer: nat)
      modifies `pollingTimer, `refreshListeners
      ensures old(pollingTimer).Some? ==> pollingTimer == old(pollingTimer) && refreshListeners == old(refreshListeners)
      ensures old(pollingTimer).None? ==> pollingTimer == Some(timer) && refreshListeners == old(refreshListeners) + 1
    {
      if pollingTimer.Some? {
        return;
      }
      pollingTimer := Some(timer);
      refreshListeners := refreshListeners + 1;
    }

    /** `startPolling` as intended: the refresh listeners are registered once per page. */
    method StartPolling(timer: nat)
      modifies `pollingTimer, `refreshListeners
      ensures old(pollingTimer).Some? ==> pollingTimer == old(pollingTimer)
      ensures old(pollingTimer).None? ==> pollingTimer == Some(timer)
      ensures refreshListeners == if old(pollingTimer).None? && old(refreshListeners) == 0 then 1 else old(refreshListeners)
      ensures old(refreshListeners) <= 1 ==> refreshListeners <= 1
    {
      if pollingTimer.Some? {
        return;
      }
      pollingTimer := Some(timer);
      if refreshListeners == 0 {
        refreshListeners := 1;
      }
    }

    /**
     * `startVisitorTracking`: a session id is drawn once, for an identified
     * visitor. `freshId` is the id drawn (a random UUID, or `session_` and the
     * time), never empty.
     */
    method StartVisitorTracking(freshId: string)
      requires freshId != ""
      modifies `sessionId
      ensures sessionId == if connected && visitor.Some? && old(sessionId).None? then Some(freshId) else old(sessionId)
    {
      if !connected || visitor.None? {
        return;
      }
      if sessionId.Some? {
        return;
      }
      sessionId := Some(freshId);
    }

    /** `clearVisitor`: drops the stored visitor record. */
    method ClearVisitor()
      modifies `local
      ensures local == old(local) - {VisitorKey}
    {
      local := local - {VisitorKey};
    }

    /**
     * `logout`: forgets the visitor and the proofs (under the settings still
     * loaded), then every cached list, the view and both handles.
     */
    method Logout()
      modifies `visitor, `local, `sessionId, `documents, `notes, `settings
      modifies `currentView, `currentSection, `docSearchTerm, `pollingTimer, `realtimeSubscription
      ensures visitor == None && sessionId == None
      ensures local == Cleared(PolicyOf(old(settings)), old(local) - {VisitorKey})
      ensures documents == [] && notes == [] && settings == map[]
      ensures currentView == Dashboard && currentSection == None && docSearchTerm == ""
      ensures pollingTimer == None && !realtimeSubscription
    {
      ForgetVisitor();
      ResetSession();
    }

    /** The first half of `logout`: the visitor, its stored record and the unlock proofs go. */
    method ForgetVisitor()
      modifies `visitor, `local
      ensures visitor == None
      ensures local == Cleared(PolicyOf(settings), old(local) - {VisitorKey})
    {
      visitor := None;
      ClearVisitor();
      SetUnlocked(false, None);
    }

    /** The second half of `logout`: the session, the cached data, the view and both handles are reset. */
    method ResetSession()
      modifies `sessionId, `documents, `notes, `settings
      modifies `currentView, `currentSection, `docSearchTerm, `pollingTimer, `realtimeSubscription
      ensures sessionId == None && documents == [] && notes == [] && settings == map[]
      ensures currentView == Dashboard && currentSection == None && docSearchTerm == ""
      ensures pollingTimer == None && !realtimeSubscription
    {
      sessionId := None;
      documents := [];
      notes := [];
      settings := map[];
      currentView := Dashboard;
      currentSection := None;
      docSearchTerm := "";
      if pollingTimer.Some? {
        pollingTimer := None;
      }
      realtimeSubscription := false;
    }

    // -------------------------------------------------------------------------
    // Navigation
    // -------------------------------------------------------------------------

    /** `openSection`: switches to a known section and returns the completion its badge shows. */
    method OpenSection(sectionId: string) returns (badge: Option<nat>)
      modifies `currentView, `currentSection, `docSearchTerm
      ensures FindSection(Sections, sectionId).None? ==>
        badge == None && currentView == old(currentView) && currentSection == old(currentSection) && docSearchTerm == old(docSearchTerm)
      ensures FindSection(Sections, sectionId).Some? ==>
        currentView == SectionView && currentSection == FindSection(Sections, sectionId) && docSearchTerm == ""
        && badge == Some(SectionPercent(documents, sectionId))
    {
      var section := FindSection(Sections, sectionId);
      if section.None? {
        return None;
      }
      currentView := SectionView;
      currentSection := section;
      docSearchTerm := "";
      var sectionDocs := SectionDocs(documents, sectionId);
      var uploadedCount := UploadedCount(sectionDocs);
      var totalCount := |sectionDocs|;
      var percent := if totalCount > 0 then CompletionPercent(uploadedCount, totalCount) else 0;
      return Some(percent);
    }
  }

  /** A link that matches a configured credential carries one of the credential parameters. */
  lemma LinkNamesParam(q: Query)
    ensures TokenParam(q) != "" ==> "token" in q
    ensures PwParam(q) != "" ==> "pw" in q || "access" in q
  {
    TrimEmpty();
  }

  /**
   * The listener leak of the written `startPolling`: a page that has loaded its
   * settings starts polling, logs out and starts again, and two pairs of
   * refresh listeners are registered, so one visibility change runs
   * `refreshAll` twice.
   */
  method ListenerLeakAsWritten(local: Store, query: Query, rows: seq<Row>) returns (pairs: nat)
    ensures pairs == 2
  {
    var room := new DataRoom(true, local, query, None);
    room.LoadSettings(Some(rows));
    room.StartPollingAsWritten(1);
    room.Logout();
    room.StartPollingAsWritten(2);
    pairs := room.refreshListeners;
  }

  /** The same sequence with the intended `startPolling` leaves one pair. */
  method ListenerPairCorrected(local: Store, query: Query, rows: seq<Row>) returns (pairs: nat)
    ensures pairs == 1
  {
    var room := new DataRoom(true, local, query, None);
    room.LoadSettings(Some(rows));
    room.StartPolling(1);
    room.Logout();
    room.StartPolling(2);
    pairs := room.refreshListeners;
  }
}
