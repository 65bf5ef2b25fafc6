# ReDewable data room and investor gate, modelled in Dafny

This project models the two browser scripts that control who sees the
ReDewable investor material.

**`dataroom.app.js`** is the data room page. It:

- reads a snapshot of `dataroom_settings` (status, access mode, passcode, link token);
- decides whether the visitor may see the room;
- accepts a passcode or token typed into the access modal, or carried in the link (`?pw=`, `?access=`, `?token=`);
- records the unlock as a proof in localStorage under a key bound to the current credential;
- strips the credential parameters from the address;
- lists the sections that have documents and the completion percentage of each;
- resets everything on logout.

**`investor-gate.js`** gates the public project pages. It:

- leaves the public paths alone;
- resumes a stored visitor session younger than seven days;
- otherwise asks for an email and an access code, a shared password, or identity only, depending on `investor_access_mode`;
- on success stores the session and starts scroll-depth and section tracking.

Pure decisions are functions over values:

- `DataRoomAccess`: the access policy;
- `DataRoomCatalog`: HTML escaping, file types, sections and completion;
- `InvestorGate`: paths, validation, submit order and tracking;
- `SessionCodec`: the JSON text of the stored session;
- `Text`: JavaScript's `trim`, `toLowerCase` and global replace.

The page state that the scripts update in place is a class: `DataRoomApp.DataRoom` and `InvestorGate.Gate`. Each method performs the script's steps on its fields and is proved against the pure functions. The proved properties include:

- The decision is a function of the status, the mode, and the two proofs under the current credentials.
- A disabled or maintenance status dominates everything else.
- Every accepted submission or matching link leads to an authorised room.
- Changing a credential retires every earlier proof.
- `escapeHtml` round-trips through the browser's entity decoding.
- A written session reads back unchanged for exactly seven days.
- Each gate mode reads only the inputs its modal shows.

Some behaviour is exact-string rather than normalised, and the model keeps it that way:

- The investor access mode is compared without trimming or lower-casing: `Password` behaves as open mode.
- The data room status is lower-cased but not trimmed: ` disabled` does not block.

## Model

| member | source | states |
|---|---|---|
| Text.Trim | dataroom.app.js:225-231 | `trim` never lengthens its input |
| Text.TrimShape | dataroom.app.js:225-231 | the trimmed text neither starts nor ends with whitespace, and is empty exactly when the input is all whitespace |
| Text.TrimIdempotent | dataroom.app.js:225-231 | trimming a trimmed credential changes nothing |
| Text.TrimPadded | dataroom.app.js:443 | whitespace around a value never changes what `trim` yields |
| Text.Lower | dataroom.app.js:391 | `toLowerCase` keeps the length |
| Text.LowerShape | dataroom.app.js:391 | `toLowerCase` maps each character on its own and leaves no upper-case letter |
| Text.TrimLower | investor-gate.js:176 | lower-casing and trimming commute, so the email normalisation order is immaterial |
| DataRoomCatalog.EscapeHtml | dataroom.app.js:10-18 | defines the five chained global replaces, `&` first; proved per character and round-tripping below |
| DataRoomCatalog.EscapeHtmlIsPerCharacter | dataroom.app.js:10-18 | the five chained global replaces equal escaping each character on its own (no entity is escaped twice) |
| DataRoomCatalog.EscapeRoundTrip | dataroom.app.js:10-18 | the browser decodes escaped text back to exactly the original |
| DataRoomCatalog.EscapedHasNoMarkup | dataroom.app.js:10-18 | escaped text contains no `<`, `>`, `"` or `'` |
| DataRoomCatalog.NormalizeFileType | dataroom.app.js:192-202 | the file type is always a FILE_TYPE_INFO key, and `other` for an empty value |
| DataRoomCatalog.NormalizeFileTypeAsWritten | dataroom.app.js:192-202 | defines `normalizeFileType` as written, whose last step keeps any name `FILE_TYPE_INFO[t]` finds, inherited ones included |
| DataRoomCatalog.ConstructorEscapesNormalization | dataroom.app.js:192-202 | as written, `constructor` comes out as a type no table knows; the intended version gives `other` |
| DataRoomCatalog.InheritedNameEscapes | dataroom.app.js:201 | every inherited object name passes the written lookup unchanged and is not a key |
| DataRoomCatalog.NormalizationAgreesElsewhere | dataroom.app.js:192-202 | apart from inherited names, the written and intended normalisations agree |
| DataRoomCatalog.LongWordHasNoAlias | dataroom.app.js:195-200 | no alias is longer than five characters |
| DataRoomCatalog.NormalizeFileTypeIgnoresCaseAndSpace | dataroom.app.js:193 | case and surrounding whitespace never change the file type |
| DataRoomCatalog.NormalizeFileTypeIdempotent | dataroom.app.js:192-202 | normalising twice is normalising once |
| DataRoomCatalog.KeyIsCanonical | dataroom.app.js:182-202 | every FILE_TYPE_INFO key normalises to itself |
| DataRoomCatalog.GetFileTypeInfo | dataroom.app.js:204-214 | built on the corrected normalisation (as written, `constructor` gives an undefined label, kind and class name): the info's key is the normalised type, its class name is that key, and its label and kind are non-empty |
| DataRoomCatalog.FindSection | dataroom.app.js:1110-1111 | a found section is in SECTIONS with that id; none is found exactly when no section has it |
| DataRoomCatalog.SectionDocs | dataroom.app.js:1137 | a document is kept exactly when it is in the list and belongs to the section |
| DataRoomCatalog.SectionDocsAppend | dataroom.app.js:1137 | filtering a concatenation is the concatenation of the filtered parts, in order |
| DataRoomCatalog.SectionDocsCounts | dataroom.app.js:1137 | the filtered list holds each of the section's rows as many times as the document list does, and no other row |
| DataRoomCatalog.UploadedCount | dataroom.app.js:1138-1140 | the count is at most the total, equals it exactly when all are uploaded, and is 0 exactly when none is (so a single document counts 1 exactly when uploaded) |
| DataRoomCatalog.UploadedCountAppend | dataroom.app.js:1138-1140 | the uploaded count of a concatenation is the sum of the parts' counts |
| DataRoomCatalog.CompletionPercent | dataroom.app.js:1141-1142 | defines the shown percentage as the nearest integer to 100·u/t, halves up, and 0 for no documents; proved in CompletionPercentSpec |
| DataRoomCatalog.CompletionPercentSpec | dataroom.app.js:1141-1142 | the percentage stands for `Math.round((u/t)*100)`, rounded in exact arithmetic: at most 100, within half a point of the exact share, 100 and 0 exactly at the rounding thresholds (199 of 200 already shows 100%) |
| DataRoomCatalog.CompletionPercentExtremes | dataroom.app.js:1141-1142 | all uploaded shows 100%, none uploaded shows 0% |
| DataRoomCatalog.SectionPercent | dataroom.app.js:1137-1142 | defines a section's completion as the percentage of its uploaded documents among its own documents |
| DataRoomCatalog.SectionPercentExtremes | dataroom.app.js:1137-1142 | a section without documents shows 0%; one with all documents uploaded shows 100% |
| DataRoomCatalog.NonEmptySections | dataroom.app.js:957 | a section is kept exactly when some document belongs to it |
| DataRoomCatalog.VisibleSectionsSpec | dataroom.app.js:956-957 | with `dr_show_empty_sections` true all sections show; otherwise exactly those with a document, each with a non-empty document list |
| DataRoomCatalog.NonEmptySectionsKeepOrder | dataroom.app.js:1079 | the listed sections keep SECTIONS' order |
| DataRoomCatalog.VisibleSections | dataroom.app.js:956-957 | defines the shown sections: all of SECTIONS with `dr_show_empty_sections` true, else those with a document; proved in VisibleSectionsSpec |
| DataRoomAccess.SnapshotKeys | dataroom.app.js:620-629 | the settings snapshot holds exactly the keys of the rows read |
| DataRoomAccess.SnapshotLastWins | dataroom.app.js:624-626 | each key carries the value of its last row |
| DataRoomAccess.Snapshot | dataroom.app.js:620-629 | defines the settings snapshot: start empty, each row overwrites its key in order |
| DataRoomAccess.SettingOr | dataroom.app.js:220 | a setting read with a fallback gives the fallback, or the stored value when that is non-empty |
| DataRoomAccess.ModeNamesNormal | dataroom.app.js:219-223 | the three mode names are fixed points of trim-and-lower-case |
| DataRoomAccess.GetAccessMode | dataroom.app.js:219-223 | defines the mode read from `dr_access_mode`, trimmed and lower-cased, password by default |
| DataRoomAccess.GetPassword | dataroom.app.js:225-227 | defines the configured password, trimmed, "" when unset |
| DataRoomAccess.GetLinkToken | dataroom.app.js:229-231 | defines the configured link token, trimmed, "" when unset |
| DataRoomAccess.GetAccessModeSpec | dataroom.app.js:219-223 | open and token mode exactly when the normalised setting names them; password mode otherwise, including unset |
| DataRoomAccess.CredentialsTrimmed | dataroom.app.js:225-231 | the password and token come back trimmed, and empty when unset |
| DataRoomAccess.AbsentStatusIsActive | dataroom.app.js:391-392 | a missing status never blocks |
| DataRoomAccess.PaddedStatusIsNotBlocking | dataroom.app.js:391-392 | a status with leading whitespace never blocks, because it is not trimmed |
| DataRoomAccess.UnlockKeyFor | dataroom.app.js:233-237 | defines the v2 proof key `redew_dataroom_unlocked_v2:<mode>:<credential>` |
| DataRoomAccess.IsUnlocked | dataroom.app.js:249-268 | defines `isUnlocked`: open mode, the current token's proof, or outside token mode the current password's proof |
| DataRoomAccess.Cleared | dataroom.app.js:239-247 | defines the store after `clearUnlock` |
| DataRoomAccess.Unlocked | dataroom.app.js:270-287 | defines the store after `setUnlocked(true, modeUsed)` |
| DataRoomAccess.UnlockKeyForSpec | dataroom.app.js:233-237 | the key is `unlockKeyFor` on the mode's name, carries the v2 prefix and differs from the v1 flag |
| DataRoomAccess.UnlockKeysDistinct | dataroom.app.js:233-237 | two proof keys are equal exactly when the modes and the trimmed credentials are equal |
| DataRoomAccess.ClearedRemovesExactly | dataroom.app.js:239-247 | `clearUnlock` removes the current password proof, the current token proof and the v1 flag, and nothing else |
| DataRoomAccess.UnlockTargetSpec | dataroom.app.js:270-287 | `setUnlocked(true)` writes only a configured credential's own key |
| DataRoomAccess.UnlockRoundTrip | dataroom.app.js:249-287 | after writing a proof with a configured credential, `isUnlocked` holds under the same policy |
| DataRoomAccess.ClearedLocksAgain | dataroom.app.js:239-268 | after `clearUnlock`, only open mode still counts as unlocked |
| DataRoomAccess.Evaluate | dataroom.app.js:390-429 | defines the decision once the link has been applied: status, then open, token and password mode |
| DataRoomAccess.Enforce | dataroom.app.js:390-429 | defines `enforceAccessRules` as outcome, store and address, running the link auto-unlock only when the status does not block and the mode is not open |
| DataRoomAccess.StatusDominates | dataroom.app.js:391-395 | a disabled or maintenance status blocks and changes neither the store nor the address |
| DataRoomAccess.OpenModeAuthorizes | dataroom.app.js:403-406 | open mode authorises without touching the store or the link |
| DataRoomAccess.TokenModeDecision | dataroom.app.js:410-421 | token mode: no token is a misconfiguration; otherwise access exactly when the current token's proof is stored, else the token prompt |
| DataRoomAccess.PasswordModeDecision | dataroom.app.js:423-429 | password mode: access exactly when no password is set or a current token or password proof is stored, else the passcode prompt |
| DataRoomAccess.IsUnlockedIsNotTheDecision | dataroom.app.js:249-268 | with no password and no proofs `isUnlocked` is false, yet access is granted |
| DataRoomAccess.EvaluateReadsCurrentProofs | dataroom.app.js:390-429 | the decision reads the store only at the current token and password keys |
| DataRoomAccess.StaleProofIgnored | dataroom.app.js:233-268 | a proof for any other credential never affects the decision |
| DataRoomAccess.EvaluateMonotone | dataroom.app.js:390-429 | more stored proofs never take access away |
| DataRoomAccess.ClearedTokenRoomAsksAgain | dataroom.app.js:239-247 | after `clearUnlock`, a configured token room prompts for the token again |
| DataRoomAccess.LinkMatch | dataroom.app.js:365-382 | the token parameter matches first, then the password parameter, each only against a non-empty configured value |
| DataRoomAccess.LinkStore | dataroom.app.js:365-388 | defines the store after the link auto-unlock |
| DataRoomAccess.LinkQuery | dataroom.app.js:365-388 | defines the address after the link auto-unlock: the credential parameters go only when a link matched |
| DataRoomAccess.LinkIdempotent | dataroom.app.js:365-388 | running the link auto-unlock twice changes nothing more |
| DataRoomAccess.LinkUnlockAuthorizes | dataroom.app.js:365-429 | a link carrying the token (or, in password mode, the password) authorises on the same load and leaves no credential parameter |
| DataRoomAccess.PasswordLinkDoesNotOpenTokenRoom | dataroom.app.js:379-421 | in token mode a password link writes a password proof the token check never reads |
| DataRoomAccess.LinkWithoutMatchChangesNothing | dataroom.app.js:365-388 | without a matching parameter, the store and the address are left alone |
| DataRoomAccess.Submission | dataroom.app.js:438-495 | defines what one submission decides and the store it leaves |
| DataRoomAccess.SubmissionTrims | dataroom.app.js:443 | the entered value is trimmed before comparison |
| DataRoomAccess.SubmissionRejectionKeepsStore | dataroom.app.js:438-495 | a rejection leaves the store untouched and carries the page's message for the mode |
| DataRoomAccess.SubmissionWithoutToken | dataroom.app.js:451-458 | token mode without a token refuses every entry with the configuration message |
| DataRoomAccess.PasswordModeAcceptsToken | dataroom.app.js:472-477 | in password mode the configured token is accepted and stored as a token proof |
| DataRoomAccess.SubmissionProceedAuthorizes | dataroom.app.js:438-495 | every accepted submission leads to an authorised room under the same policy |
| DataRoomAccess.PasswordSubmissionAuthorizes | dataroom.app.js:470-492 | in password mode every accepted submission authorises |
| DataRoomAccess.PaddedPasscodeAccepted | dataroom.app.js:443-492 | the passcode with whitespace around it is accepted and opens the room |
| DataRoomApp.CredentialParamSet | dataroom.app.js:386 | the stripped parameters are exactly `pw`, `access` and `token` |
| DataRoomApp.LinkNamesParam | dataroom.app.js:366-367 | a non-empty link credential comes from one of the stripped parameters |
| DataRoomApp.EnforceRewrites | dataroom.app.js:390-429 | defines how often the access check rewrites the address: once when the link auto-unlock runs and matches, else never |
| DataRoomApp.DataRoom.constructor | dataroom.app.js:54-71 | the page starts with an empty snapshot, no documents or notes, no handles and the dashboard view |
| DataRoomApp.DataRoom.LoadSettings | dataroom.app.js:620-629 | with a client and data, the snapshot is rebuilt from the rows; otherwise it is kept |
| DataRoomApp.DataRoom.LoadDocuments | dataroom.app.js:601-609 | with a client and data the documents are replaced; otherwise kept |
| DataRoomApp.DataRoom.LoadNotes | dataroom.app.js:611-618 | with a client and data the notes are replaced; otherwise kept |
| DataRoomApp.DataRoom.IsUnlockedNow | dataroom.app.js:249-268 | the result is `isUnlocked` under the current snapshot |
| DataRoomApp.DataRoom.HasUnlock | dataroom.app.js:249-268 | the result is `isUnlocked` for the given credentials |
| DataRoomApp.DataRoom.ClearUnlock | dataroom.app.js:239-247 | the new store is the old one with the current proofs and the v1 flag removed |
| DataRoomApp.DataRoom.ClearProofs | dataroom.app.js:239-247 | the same three removals, for given credentials |
| DataRoomApp.DataRoom.SetUnlocked | dataroom.app.js:270-287 | true writes the proof of the mode used; false clears |
| DataRoomApp.DataRoom.WriteProof | dataroom.app.js:270-287 | the store gains exactly the proof for the mode used, if its credential is set |
| DataRoomApp.DataRoom.CleanUrlParams | dataroom.app.js:289-304 | every listed parameter is removed, and the address is rewritten once exactly when one was present |
| DataRoomApp.DataRoom.MaybeAutoUnlockFromLink | dataroom.app.js:365-388 | the store and address become the link-unlock result; one address rewrite exactly when a link matched |
| DataRoomApp.DataRoom.LinkUnlock | dataroom.app.js:365-388 | the same, for given credentials |
| DataRoomApp.DataRoom.EnforceAccessRules | dataroom.app.js:390-429 | outcome, store and address are the decision function's, the address is rewritten EnforceRewrites times, and the result is true exactly when authorised |
| DataRoomApp.DataRoom.Decide | dataroom.app.js:390-429 | the same, under a given policy |
| DataRoomApp.DataRoom.Submit | dataroom.app.js:438-495 | the result and the new store are the submission function's |
| DataRoomApp.DataRoom.SubmitWith | dataroom.app.js:438-495 | the same, under a given policy |
| DataRoomApp.DataRoom.OnSettingsChanged | dataroom.app.js:573-578 | reload, auto-unlock and decide end as one auto-unlock and the decision on its result, with one address rewrite exactly when a link matched |
| DataRoomApp.DataRoom.SetupRealtimeSync | dataroom.app.js:555-589 | subscribes once with a client; a held channel is kept |
| DataRoomApp.DataRoom.StartPollingAsWritten | dataroom.app.js:691-706 | with no timer, a timer starts and another listener pair is registered |
| DataRoomApp.DataRoom.StartPolling | dataroom.app.js:691-706 | the intended version keeps at most one listener pair |
| DataRoomApp.DataRoom.StartVisitorTracking | dataroom.app.js:801-807 | a session id, never empty, is drawn once, only with a client and an identified visitor |
| DataRoomApp.DataRoom.ClearVisitor | dataroom.app.js:726-730 | only the stored visitor record is removed |
| DataRoomApp.DataRoom.Logout | dataroom.app.js:913-947 | visitor, its record and the unlock proofs go; session, data, view and both handles are reset |
| DataRoomApp.DataRoom.ForgetVisitor | dataroom.app.js:918-920 | the visitor is dropped, then its record and the current proofs are removed |
| DataRoomApp.DataRoom.ResetSession | dataroom.app.js:922-941 | session, data, view, polling timer and channel are reset |
| DataRoomApp.DataRoom.OpenSection | dataroom.app.js:1109-1145 | an unknown id changes nothing; a known one switches the view, clears the search and returns the section's completion |
| DataRoomApp.ListenerLeakAsWritten | dataroom.app.js:691-706 | start, logout, start leaves two refresh listener pairs |
| DataRoomApp.ListenerPairCorrected | dataroom.app.js:691-706 | with the intended guard the same sequence leaves one pair |
| SessionCodec.HexRoundTrip | investor-gate.js:89 | a written hexadecimal digit reads back as its value |
| SessionCodec.JsonStringRoundTrip | investor-gate.js:80-89 | a string written by JSON.stringify reads back by JSON.parse as the same text, the rest untouched |
| SessionCodec.EscapeJsonCharRoundTrip | investor-gate.js:80-89 | each written character reads back as itself |
| SessionCodec.NatDigitsShape | investor-gate.js:89 | a written integer is digits only with no leading zero |
| SessionCodec.NatRoundTrip | investor-gate.js:80-89 | a written timestamp reads back as the same integer |
| SessionCodec.EncodeSession | investor-gate.js:87-91 | defines the text `JSON.stringify` writes for the session record |
| SessionCodec.ParseSession | investor-gate.js:77-85 | defines the reading of that text, none for text it cannot read |
| SessionCodec.SessionRoundTrip | investor-gate.js:77-91 | the session `setSession` writes is read back by `getSession` with the same fields and time |
| SessionCodec.EncodedSessionNotEmpty | investor-gate.js:79-80 | the stored text is never empty, so `if (!raw)` never discards a written session |
| InvestorGate.EscHasNoMarkup | investor-gate.js:39-41 | escaped text has no `<`, `>` or `"`, and an apostrophe only if the input had one |
| InvestorGate.EscPlainText | investor-gate.js:39-41 | text without the four characters is unchanged |
| InvestorGate.Esc | investor-gate.js:39-41 | defines `esc`: `&`, `<`, `>` and `"` replaced in that order, apostrophes kept |
| InvestorGate.StripShape | investor-gate.js:271 | stripping removes trailing slashes only, and leaves none |
| InvestorGate.NormalizePath | investor-gate.js:271 | defines the compared path: trailing slashes stripped, `/` when nothing is left |
| InvestorGate.IsPublic | investor-gate.js:28 | defines a public page as one whose normalised path is in PUBLIC_PATHS |
| InvestorGate.NormalizePathSpec | investor-gate.js:271 | the compared path is never empty, ends in `/` only when it is `/`, and is a fixed point |
| InvestorGate.TrailingSlashIgnored | investor-gate.js:271-272 | one more trailing slash never changes whether a page is gated |
| InvestorGate.SlashesAreHome | investor-gate.js:271-272 | any path of slashes only, the empty one included, is the home page and public |
| InvestorGate.GetSetting | investor-gate.js:100-106 | the fallback, unless a client exists and the row holds a non-empty value, which is then returned |
| InvestorGate.MatchesSpec | investor-gate.js:173-178 | the query selects exactly the rows with that email and code |
| InvestorGate.ValidateCode | investor-gate.js:170-186 | defines the code check: client missing, then unreachable, then not exactly one matching row, then inactive, else the row's visitor |
| InvestorGate.ValidateCodeSound | investor-gate.js:170-186 | an accepted code belongs to an active row matching the normalised email and code, and yields that row's visitor |
| InvestorGate.ValidateCodeComplete | investor-gate.js:170-186 | when the client answers and exactly one row has the normalised email and code, an active row is accepted with its visitor and an inactive one is refused as revoked |
| InvestorGate.ValidateCodeIgnoresEmailForm | investor-gate.js:176 | the email's case and surrounding whitespace do not matter |
| InvestorGate.ValidatePassword | investor-gate.js:188-193 | defines the shared-password check on the stored password |
| InvestorGate.ValidatePasswordSpec | investor-gate.js:188-193 | accepted exactly when a password is configured and equal after trimming both; the visitor's fields come back trimmed |
| InvestorGate.BlankPasswordMatchesBlank | investor-gate.js:189-191 | a whitespace-only configured password is matched by an empty entry |
| InvestorGate.ValidateOpen | investor-gate.js:195-197 | always accepted, with the three fields trimmed |
| InvestorGate.FormFields | investor-gate.js:235-239 | defines which inputs the modal shows for a mode |
| InvestorGate.FormFieldsSpec | investor-gate.js:235-239 | email always; name and company exactly outside code mode; never both code and password |
| InvestorGate.SubmitOrder | investor-gate.js:329-351 | an empty email fails first; password mode without a name fails next; any other mode accepts |
| InvestorGate.SubmitDecision | investor-gate.js:329-351 | defines the order of `handleSubmit`'s checks and which validation each mode calls |
| InvestorGate.HiddenFieldsUnused | investor-gate.js:323-351 | the decision never reads an input the modal does not show |
| InvestorGate.UnnormalizedModeIsOpen | investor-gate.js:338-351 | `Password` and `code ` are compared exactly and collect identity only |
| InvestorGate.ScrollPercent | investor-gate.js:111-117 | defines the scrolled percentage of the page, capped at 100 |
| InvestorGate.RaisedMax | investor-gate.js:116 | defines the deepest scroll after one `trackScroll`: raised to the page's percentage when that is larger |
| InvestorGate.ScrollPercentSpec | investor-gate.js:111-117 | the percentage is between 0 and 100, and a page seen to its bottom counts 100 |
| InvestorGate.VisibleIdsSpec | investor-gate.js:119-126 | an id is collected exactly when a section with it is in view |
| InvestorGate.ExpiryBoundary | investor-gate.js:81 | a session lives exactly seven days (604800000 ms) and expires one millisecond later |
| InvestorGate.WrittenRecordReadsBack | investor-gate.js:77-91 | after a write, the stored record is exactly the one written |
| InvestorGate.StoreAfterRead | investor-gate.js:77-85 | defines the store after `getSession`: an expired record is removed, anything else kept |
| InvestorGate.Gate.constructor | investor-gate.js:29-34 | no visitor, no scroll, no sections, no listeners |
| InvestorGate.Gate.GetSession | investor-gate.js:77-85 | a live record is returned; an expired one is removed and none returned; the store becomes the store after a read |
| InvestorGate.Gate.SetSession | investor-gate.js:87-91 | the session key holds the encoded visitor with the write time |
| InvestorGate.Gate.ClearSession | investor-gate.js:93-95 | only the session key is removed, and no record remains |
| InvestorGate.Gate.TrackScroll | investor-gate.js:111-117 | the maximum only rises, never past 100, covers the current percentage, and is exactly the raised maximum |
| InvestorGate.Gate.TrackSections | investor-gate.js:119-126 | exactly the ids in view are added; none is removed |
| InvestorGate.Gate.StartTracking | investor-gate.js:378-385 | one scroll listener is added, the maximum becomes the raised maximum, and exactly the ids in view are added |
| InvestorGate.Gate.HandleSubmit | investor-gate.js:318-372 | the result is the decision on the shown inputs; failure changes no field; success sets the visitor, stores the session and starts tracking with its exact effects |
| InvestorGate.Gate.Boot | investor-gate.js:269-294 | public pages and unconfigured gates change no field; a resume keeps the store and starts tracking; a gated page only drops an expired session; a live session with an email resumes exactly when present; otherwise the gate shows the configured mode (`code` by default) |
| InvestorGate.SessionLifetime | investor-gate.js:77-91 | a stored session reads back unchanged for seven days and is removed after |

## Left out

- Rendering (menus, cards, document lists, notes, modals, breadcrumbs, icons, styles) is left out: it writes HTML and has no decision beyond the section and percentage functions modelled.
- Supabase queries, the realtime channel and the table writes are inputs or booleans (`connected`, `reachable`, the rows returned); their network behaviour and failures are left out.
- Timers, event listeners and `async` interleavings are left out; listeners are counted only where the count matters (scroll listeners, the refresh listener pairs).
- The `startApp`, `loadData` and `refreshAll` orchestration is left out; `Submit` returns `Proceed` where the page would go on to `startApp`.
- `getSupabaseConfig` and `initSupabase` are reduced to the `sdkLoaded` and `configured` inputs of `Boot`.
- `sessionStart`, the visitor-session inserts, `beforeunload`, `endVisitorSession`, `trackVisitor`, `trackSectionView`, `logPageView` and `logPageExit` are telemetry and are left out.
- Exceptions thrown by localStorage, which the scripts swallow, are left out; storage always succeeds in the model.
- Text.Lower: lower-cases ASCII letters only; JavaScript's full Unicode case mapping is not modelled.
- DataRoomCatalog.CompletionPercent: the share is rounded in exact arithmetic, not as the floating-point `(u/t)*100`; where the float product falls just below a half the page rounds down, so 23 of 40 shows 57% on the page and 58% here (likewise 29 of 200 and 57 of 200).
- DataRoomCatalog.CompletionPercentSpec: its thresholds and half-point bound are about the exact share, so they differ from the page at the same float-rounding inputs (23 of 40).
- DataRoomCatalog.SectionPercent: built on CompletionPercent, so a section's completion carries the same exact-arithmetic rounding (23 of 40 gives 58, the page 57).
- DataRoomApp.DataRoom.OpenSection: the returned completion is the exact-arithmetic percentage and differs from the page's badge at the float-rounding inputs (23 of 40 gives 58, the page 57).
- InvestorGate.ScrollPercentSpec: the percentage is computed in exact arithmetic over whole pixels, not in floating point; fractional scroll offsets are not modelled.
- SessionCodec.ParseSession: reads only the layout JSON.stringify writes for the session; it does not accept arbitrary JSON, null fields or surrogate `\u` escapes.
- SessionCodec.NatDigits: timestamps of 10^21 or more, which JavaScript writes in exponent form, are not modelled.
- InvestorGate.Esc: only the absence of markup characters is proved; no decoding round trip is stated for it.
- DataRoomApp.DataRoom.SetupRealtimeSync: a channel that fails to be created is not modelled; the subscription always succeeds with a client.
- The `renderMenu` and `renderCategories` filters are both modelled by `DataRoomCatalog.VisibleSections`, and are not modelled separately.

## Findings

| source | as written | input that shows it | evidently intended | confidence | as-written member | corrected member |
|---|---|---|---|---|---|---|
| dataroom.app.js:201 | `FILE_TYPE_INFO[t] ? t : 'other'` also accepts names the object inherits (`constructor`, `__proto__`) | file type `constructor`: the result is `constructor`, which no table knows (`ConstructorEscapesNormalization`) | only FILE_TYPE_INFO's own keys come out; anything else is `other` | medium, not executed | DataRoomCatalog.NormalizeFileTypeAsWritten | DataRoomCatalog.NormalizeFileType |
| dataroom.app.js:691-706 | the visibilitychange and online listeners are added on every start, but logout clears only the timer | start polling, log out, start polling: two listener pairs call `refreshAll` on one event (`ListenerLeakAsWritten`) | the refresh listeners are registered once per page | medium, not executed | DataRoomApp.DataRoom.StartPollingAsWritten | DataRoomApp.DataRoom.StartPolling |
