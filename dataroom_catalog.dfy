/**
 * The data room's document catalogue as the page presents it (dataroom.app.js):
 * HTML escaping, file-type normalisation, the fixed section list, which
 * sections are shown, and each section's completion percentage.
 */
module DataRoomCatalog {
  import opened Wrappers
  import opened Text
  import opened Arith
  import DataRoomAccess

  // ---------------------------------------------------------------------------
  // escapeHtml
  // ---------------------------------------------------------------------------

  /** `escapeHtml`: five global replaces, `&` first. */
  function EscapeHtml(s: string): string {
    var a := ReplaceAll(s, '&', "&amp;");
    var b := ReplaceAll(a, '<', "&lt;");
    var c := ReplaceAll(b, '>', "&gt;");
    var d := ReplaceAll(c, '"', "&quot;");
    ReplaceAll(d, '\'', "&#39;")
  }

  /** The reference escaping of one character. */
  function EscapeChar(c: char): string {
    if c == '&' then "&amp;"
    else if c == '<' then "&lt;"
    else if c == '>' then "&gt;"
    else if c == '"' then "&quot;"
    else if c == '\'' then "&#39;"
    else [c]
  }

  /** The reference escaping: each character escaped on its own. */
  function EscapeEach(s: string): string {
    if s == [] then [] else EscapeChar(s[0]) + EscapeEach(s[1..])
  }

  lemma EscapeHtmlAppend(x: string, y: string)
    ensures EscapeHtml(x + y) == EscapeHtml(x) + EscapeHtml(y)
  {
    ReplaceAllAppend(x, y, '&', "&amp;");
    var ax, ay := ReplaceAll(x, '&', "&amp;"), ReplaceAll(y, '&', "&amp;");
    ReplaceAllAppend(ax, ay, '<', "&lt;");
    var bx, b2 := ReplaceAll(ax, '<', "&lt;"), ReplaceAll(ay, '<', "&lt;");
    ReplaceAllAppend(bx, b2, '>', "&gt;");
    var cx, cy := ReplaceAll(bx, '>', "&gt;"), ReplaceAll(b2, '>', "&gt;");
    ReplaceAllAppend(cx, cy, '"', "&quot;");
    var dx, dy := ReplaceAll(cx, '"', "&quot;"), ReplaceAll(cy, '"', "&quot;");
    ReplaceAllAppend(dx, dy, '\'', "&#39;");
  }

  /** Replacing a character that does not occur changes nothing. */
  lemma ReplaceAbsent(s: string, c: char, rep: string)
    requires c !in s
    ensures ReplaceAll(s, c, rep) == s
  {
    ReplaceAllFacts(s, c, rep);
  }

  /** On one character the chain of replaces is that character's escape: no later replace touches an earlier entity. */
  lemma EscapeHtmlChar(c: char)
    ensures EscapeHtml([c]) == EscapeChar(c)
  {
    ReplaceAllOne(c, '&', "&amp;");
    if c == '&' {
      EscapeAmp(c);
    } else {
      ReplaceAllOne(c, '<', "&lt;");
      if c == '<' {
        EscapeLt(c);
      } else {
        ReplaceAllOne(c, '>', "&gt;");
        if c == '>' {
          EscapeGt(c);
        } else if c == '"' {
          EscapeQuot(c);
        } else {
          ReplaceAllOne(c, '"', "&quot;");
          ReplaceAllOne(c, '\'', "&#39;");
        }
      }
    }
  }

  /** One replace on a one-character string. */
  lemma ReplaceAllOne(c: char, x: char, rep: string)
    ensures ReplaceAll([c], x, rep) == if c == x then rep else [c]
  {
    assert [c][1..] == [];
  }

  /** The four replaces after the first leave alone a string holding none of their characters. */
  lemma LaterReplacesKeep(e: string)
    requires '<' !in e && '>' !in e && '"' !in e && '\'' !in e
    ensures ReplaceAll(ReplaceAll(ReplaceAll(ReplaceAll(e, '<', "&lt;"), '>', "&gt;"), '"', "&quot;"), '\'', "&#39;") == e
  {
    ReplaceAbsent(e, '<', "&lt;");
    ReplaceAbsent(e, '>', "&gt;");
    ReplaceAbsent(e, '"', "&quot;");
    ReplaceAbsent(e, '\'', "&#39;");
  }

  lemma EscapeAmp(c: char)
    requires c == '&'
    ensures EscapeHtml([c]) == "&amp;"
  {
    ReplaceAllOne(c, '&', "&amp;");
    LaterReplacesKeep("&amp;");
  }

  /** The last three replaces leave alone a string holding none of their characters. */
  lemma LastThreeKeep(e: string)
    requires '>' !in e && '"' !in e && '\'' !in e
    ensures ReplaceAll(ReplaceAll(ReplaceAll(e, '>', "&gt;"), '"', "&quot;"), '\'', "&#39;") == e
  {
    ReplaceAbsent(e, '>', "&gt;");
    ReplaceAbsent(e, '"', "&quot;");
    ReplaceAbsent(e, '\'', "&#39;");
  }

  /** The last two replaces leave alone a string holding none of their characters. */
  lemma LastTwoKeep(e: string)
    requires '"' !in e && '\'' !in e
    ensures ReplaceAll(ReplaceAll(e, '"', "&quot;"), '\'', "&#39;") == e
  {
    ReplaceAbsent(e, '"', "&quot;");
    ReplaceAbsent(e, '\'', "&#39;");
  }

  lemma EscapeLt(c: char)
    requires c == '<'
    ensures EscapeHtml([c]) == "&lt;"
  {
    ReplaceAllOne(c, '&', "&amp;");
    ReplaceAllOne(c, '<', "&lt;");
    LastThreeKeep("&lt;");
  }

  lemma EscapeGt(c: char)
    requires c == '>'
    ensures EscapeHtml([c]) == "&gt;"
  {
    ReplaceAllOne(c, '&', "&amp;");
    ReplaceAllOne(c, '<', "&lt;");
    ReplaceAllOne(c, '>', "&gt;");
    LastTwoKeep("&gt;");
  }

  lemma EscapeQuot(c: char)
    requires c == '"'
    ensures EscapeHtml([c]) == "&quot;"
  {
    ReplaceAllOne(c, '&', "&amp;");
    ReplaceAllOne(c, '<', "&lt;");
    ReplaceAllOne(c, '>', "&gt;");
    ReplaceAllOne(c, '"', "&quot;");
    LastKeeps("&quot;");
  }

  /** The last replace leaves alone a string without an apostrophe. */
  lemma LastKeeps(e: string)
    requires '\'' !in e
    ensures ReplaceAll(e, '\'', "&#39;") == e
  {
    ReplaceAbsent(e, '\'', "&#39;");
  }

  /** `escapeHtml` agrees with escaping each character on its own. */
  lemma {:induction false} EscapeHtmlIsPerCharacter(s: string)
    ensures EscapeHtml(s) == EscapeEach(s)
  {
    if s != [] {
      assert s == [s[0]] + s[1..];
      EscapeHtmlAppend([s[0]], s[1..]);
      EscapeHtmlChar(s[0]);
      EscapeHtmlIsPerCharacter(s[1..]);
    }
  }

  /** The browser reads back exactly the text that was escaped. */
  lemma {:induction false} EscapeRoundTrip(s: string)
    ensures DecodeEntities(EscapeHtml(s)) == s
  {
    EscapeHtmlIsPerCharacter(s);
    DecodeEscapeEach(s);
  }

  lemma {:induction false} DecodeEscapeEach(s: string)
    ensures DecodeEntities(EscapeEach(s)) == s
  {
    if s != [] {
      var c, rest := s[0], EscapeEach(s[1..]);
      DecodeEscapeEach(s[1..]);
      DecodeEscapeChar(c, rest);
      assert s == [c] + s[1..];
    }
  }

  lemma DecodeEscapeChar(c: char, rest: string)
    ensures DecodeEntities(EscapeChar(c) + rest) == [c] + DecodeEntities(rest)
  {
    if c == '&' {
      DecodeAmp(rest);
    } else if c == '<' {
      DecodeLt(rest);
    } else if c == '>' {
      DecodeGt(rest);
    } else if c == '"' {
      DecodeQuot(rest);
    } else if c == '\'' {
      DecodeApos(rest);
    } else {
      DecodePlain(c, rest);
    }
  }

  lemma DecodeAmp(rest: string)
    ensures DecodeEntities("&amp;" + rest) == "&" + DecodeEntities(rest)
  {
    var t := "&amp;" + rest;
    assert t[..5] == "&amp;" && t[5..] == rest;
  }

  lemma DecodeLt(rest: string)
    ensures DecodeEntities("&lt;" + rest) == "<" + DecodeEntities(rest)
  {
    var t := "&lt;" + rest;
    assert t[..4] == "&lt;" && t[4..] == rest;
    assert !StartsWith(t, "&amp;") by { assert t[3] == ';'; }
  }

  lemma DecodeGt(rest: string)
    ensures DecodeEntities("&gt;" + rest) == ">" + DecodeEntities(rest)
  {
    var t := "&gt;" + rest;
    assert t[..4] == "&gt;" && t[4..] == rest;
    assert !StartsWith(t, "&amp;") by { assert t[3] == ';'; }
    assert !StartsWith(t, "&lt;") by { assert t[1] == 'g'; }
  }

  lemma DecodeQuot(rest: string)
    ensures DecodeEntities("&quot;" + rest) == "\"" + DecodeEntities(rest)
  {
    var t := "&quot;" + rest;
    assert t[..6] == "&quot;" && t[6..] == rest;
    assert t[1] == 'q';
    assert !StartsWith(t, "&amp;") && !StartsWith(t, "&lt;") && !StartsWith(t, "&gt;");
  }

  lemma DecodeApos(rest: string)
    ensures DecodeEntities("&#39;" + rest) == "'" + DecodeEntities(rest)
  {
    var t := "&#39;" + rest;
    assert t[..5] == "&#39;" && t[5..] == rest;
    assert t[1] == '#';
    assert !StartsWith(t, "&amp;") && !StartsWith(t, "&lt;") && !StartsWith(t, "&gt;") && !StartsWith(t, "&quot;");
  }

  /** A character other than the five escaped ones stands for itself: it cannot start a reference. */
  lemma DecodePlain(c: char, rest: string)
    requires c != '&'
    ensures DecodeEntities([c] + rest) == [c] + DecodeEntities(rest)
  {
    var t := [c] + rest;
    assert t[0] == c && t[1..] == rest;
    assert !StartsWith(t, "&amp;") && !StartsWith(t, "&lt;") && !StartsWith(t, "&gt;") && !StartsWith(t, "&quot;") && !StartsWith(t, "&#39;");
  }

  /** Escaped text never contains a character that could open a tag or close an attribute. */
  lemma {:induction false} EscapedHasNoMarkup(s: string)
    ensures '<' !in EscapeHtml(s) && '>' !in EscapeHtml(s) && '"' !in EscapeHtml(s) && '\'' !in EscapeHtml(s)
  {
    EscapeHtmlIsPerCharacter(s);
    EscapeEachHasNoMarkup(s);
  }

  lemma {:induction false} EscapeEachHasNoMarkup(s: string)
    ensures '<' !in EscapeEach(s) && '>' !in EscapeEach(s) && '"' !in EscapeEach(s) && '\'' !in EscapeEach(s)
  {
    if s != [] {
      EscapeEachHasNoMarkup(s[1..]);
      var e := EscapeChar(s[0]);
      assert '<' !in e && '>' !in e && '"' !in e && '\'' !in e;
    }
  }

  // ---------------------------------------------------------------------------
  // File types
  // ---------------------------------------------------------------------------

  /** The keys of FILE_TYPE_INFO. */
  predicate IsFileTypeKey(k: string) {
    k == "pdf" || k == "img" || k == "xlsx" || k == "doc" || k == "dwg" || k == "www" || k == "other"
  }

  /** The names an ordinary JavaScript object answers for although they are not its own keys (after lower-casing). */
  predicate IsInheritedName(t: string) {
    t == "constructor" || t == "__proto__"
  }

  /** `(fileType || '').toString().trim().toLowerCase()`. */
  function FileTypeText(raw: string): string {
    Lower(Trim(raw))
  }

  /** The alias table of `normalizeFileType`, on the normalised text. */
  function AliasOf(t: string): Option<string> {
    if t == "pdf" then Some("pdf")
    else if t in ["img", "image", "png", "jpg", "jpeg", "gif", "webp", "svg"] then Some("img")
    else if t in ["xls", "xlsx", "csv"] then Some("xlsx")
    else if t in ["doc", "docx", "word"] then Some("doc")
    else if t in ["dwg", "dxf", "cad"] then Some("dwg")
    else if t in ["www", "url", "link", "web"] then Some("www")
    else None
  }

  /**
   * `normalizeFileType` as written: the last step keeps `t` whenever
   * `FILE_TYPE_INFO[t]` is truthy, which also holds for inherited names.
   */
  function NormalizeFileTypeAsWritten(raw: string): string {
    var t := FileTypeText(raw);
    if t == "" then "other"
    else match AliasOf(t)
      case Some(k) => k
      case None => if t == "other" || IsInheritedName(t) then t else "other"
  }

  /** `normalizeFileType` as intended: the last step keeps only FILE_TYPE_INFO's own keys. */
  function NormalizeFileType(raw: string): (k: string)
    ensures IsFileTypeKey(k)
    ensures FileTypeText(raw) == "" ==> k == "other"
  {
    var t := FileTypeText(raw);
    if t == "" then "other"
    else match AliasOf(t)
      case Some(k) => k
      case None => "other"
  }

  /** The inherited name `constructor` passes the written lookup and comes out as a file type no table knows. */
  lemma ConstructorEscapesNormalization(raw: string)
    requires raw == "constructor"
    ensures NormalizeFileTypeAsWritten(raw) == "constructor"
    ensures !IsFileTypeKey(NormalizeFileTypeAsWritten(raw))
    ensures NormalizeFileType(raw) == "other"
  {
    assert IsPlainWord("constructor");
    CanonicalWord(raw);
    InheritedNameEscapes(raw);
  }

  /** Any text that normalises to an inherited name survives the written lookup, and the intended one maps it to "other". */
  lemma InheritedNameEscapes(raw: string)
    requires IsInheritedName(FileTypeText(raw))
    ensures NormalizeFileTypeAsWritten(raw) == FileTypeText(raw)
    ensures !IsFileTypeKey(NormalizeFileTypeAsWritten(raw))
    ensures NormalizeFileType(raw) == "other"
  {
    LongWordHasNoAlias(FileTypeText(raw));
  }

  /** Every alias is at most five characters long. */
  lemma LongWordHasNoAlias(t: string)
    requires |t| > 5
    ensures AliasOf(t) == None
  {
  }

  /** Apart from inherited names the written and the intended normalisation agree. */
  lemma NormalizationAgreesElsewhere(raw: string)
    requires !IsInheritedName(FileTypeText(raw))
    ensures NormalizeFileTypeAsWritten(raw) == NormalizeFileType(raw)
  {
  }

  /** Case and surrounding whitespace never change the file type. */
  lemma NormalizeFileTypeIgnoresCaseAndSpace(raw: string)
    ensures NormalizeFileType(raw) == NormalizeFileType(FileTypeText(raw))
  {
    var t := FileTypeText(raw);
    TrimLower(Trim(raw));
    TrimIdempotent(raw);
    assert Trim(t) == t;
    LowerShape(Trim(raw));
    LowerOfLower(t);
  }

  /** Every file-type key normalises to itself, so normalising twice is normalising once. */
  lemma NormalizeFileTypeIdempotent(raw: string)
    ensures NormalizeFileType(NormalizeFileType(raw)) == NormalizeFileType(raw)
  {
    var k := NormalizeFileType(raw);
    KeyIsCanonical(k);
  }

  lemma KeyIsCanonical(k: string)
    requires IsFileTypeKey(k)
    ensures NormalizeFileType(k) == k
  {
    KeyIsPlainWord(k);
    KeyAliasesItself(k);
    NormalizeFixed(k);
  }

  /** A plain word that is its own alias, or is "other" with no alias, normalises to itself. */
  lemma NormalizeFixed(k: string)
    requires k != [] && IsPlainWord(k)
    requires AliasOf(k) == Some(k) || (k == "other" && AliasOf(k) == None)
    ensures NormalizeFileType(k) == k
  {
    CanonicalWord(k);
    assert FileTypeText(k) == k;
  }

  lemma KeyIsPlainWord(k: string)
    requires IsFileTypeKey(k)
    ensures k != [] && IsPlainWord(k)
  {
    if k == "pdf" { assert IsPlainWord("pdf"); }
    else if k == "img" { assert IsPlainWord("img"); }
    else if k == "xlsx" { assert IsPlainWord("xlsx"); }
    else if k == "doc" { assert IsPlainWord("doc"); }
    else if k == "dwg" { assert IsPlainWord("dwg"); }
    else if k == "www" { assert IsPlainWord("www"); }
    else { assert IsPlainWord("other"); }
  }

  lemma KeyAliasesItself(k: string)
    requires IsFileTypeKey(k)
    ensures AliasOf(k) == Some(k) || (k == "other" && AliasOf(k) == None)
  {
  }

  /** One row of FILE_TYPE_INFO. */
  datatype FileTypeInfo = FileTypeInfo(key: string, shortLabel: string, kind: string, className: string)

  /** `getFileTypeInfo` on the intended normalisation: the row of the key, whose class name is the key itself. */
  function GetFileTypeInfo(raw: string): (info: FileTypeInfo)
    ensures info.key == NormalizeFileType(raw) && info.className == info.key
    ensures info.shortLabel != "" && info.kind != ""
  {
    var k := NormalizeFileType(raw);
    if k == "pdf" then FileTypeInfo(k, "PDF", "PDF Document", "pdf")
    else if k == "img" then FileTypeInfo(k, "IMG", "Image", "img")
    else if k == "xlsx" then FileTypeInfo(k, "XLS", "Spreadsheet", "xlsx")
    else if k == "doc" then FileTypeInfo(k, "DOC", "Document", "doc")
    else if k == "dwg" then FileTypeInfo(k, "DWG", "CAD Drawing", "dwg")
    else if k == "www" then FileTypeInfo(k, "LINK", "Web Link", "www")
    else FileTypeInfo(k, "FILE", "File", "other")
  }

  // ---------------------------------------------------------------------------
  // Sections and documents
  // ---------------------------------------------------------------------------

  /** One entry of SECTIONS (the icon and description only decorate the page). */
  datatype Section = Section(id: string, name: string)

  const Sections: seq<Section> := [
    Section("executive", "Executive Summary"),
    Section("land", "Land & Site Control"),
    Section("interconnection", "Interconnection"),
    Section("permitting", "Permitting"),
    Section("technical", "Technical & Engineering"),
    Section("epc", "EPC & Construction"),
    Section("market", "Market Analysis"),
    Section("financial", "Financial Model"),
    Section("risk", "Risk Assessment"),
    Section("entity", "Entity Structure"),
    Section("team", "Team & Partners")
  ]

  /** One row of `dataroom_documents`; a missing status or URL reads as "". */
  datatype Doc = Doc(id: string, name: string, section: string, status: string, url: string, fileType: string)

  /** `SECTIONS.find((s) => s.id === sectionId)`: the first section with that id, if any. */
  function FindSection(sections: seq<Section>, id: string): (r: Option<Section>)
    ensures r.Some? ==> r.value in sections && r.value.id == id
    ensures r.None? <==> forall x :: x in sections ==> x.id != id
  {
    if sections == [] then None
    else if sections[0].id == id then Some(sections[0])
    else
      assert forall x :: x in sections <==> x == sections[0] || x in sections[1..];
      FindSection(sections[1..], id)
  }

  /** `documents.filter((d) => d.section === id)`. */
  function SectionDocs(docs: seq<Doc>, id: string): (r: seq<Doc>)
    ensures |r| <= |docs|
    ensures forall d :: d in r <==> d in docs && d.section == id
  {
    if docs == [] then []
    else if docs[0].section == id then [docs[0]] + SectionDocs(docs[1..], id)
    else SectionDocs(docs[1..], id)
  }

  /** Filtering a concatenation filters each part, in order. */
  lemma {:induction false} SectionDocsAppend(a: seq<Doc>, b: seq<Doc>, id: string)
    ensures SectionDocs(a + b, id) == SectionDocs(a, id) + SectionDocs(b, id)
  {
    if a == [] {
      assert a + b == b;
    } else {
      assert (a + b)[0] == a[0] && (a + b)[1..] == a[1..] + b;
      SectionDocsAppend(a[1..], b, id);
    }
  }

  /** The section's documents keep every copy of each of its rows and nothing else. */
  lemma {:induction false} SectionDocsCounts(docs: seq<Doc>, id: string)
    ensures forall d :: multiset(SectionDocs(docs, id))[d] == if d.section == id then multiset(docs)[d] else 0
  {
    if docs != [] {
      SectionDocsCounts(docs[1..], id);
      assert docs == [docs[0]] + docs[1..];
    }
  }

  /** `(d.status || '').toLowerCase() === 'uploaded' && (d.url || '').trim()`. */
  predicate IsUploaded(d: Doc) {
    Lower(d.status) == "uploaded" && Trim(d.url) != ""
  }

  /** The number of uploaded documents. */
  function UploadedCount(docs: seq<Doc>): (n: nat)
    ensures n <= |docs|
    ensures n == |docs| <==> forall d :: d in docs ==> IsUploaded(d)
    ensures n == 0 <==> forall d :: d in docs ==> !IsUploaded(d)
  {
    if docs == [] then 0
    else
      var rest := UploadedCount(docs[1..]);
      assert forall d :: d in docs <==> d == docs[0] || d in docs[1..];
      (if IsUploaded(docs[0]) then 1 else 0) + rest
  }

  /** The uploaded count of a concatenation is the sum of the parts' counts. */
  lemma {:induction false} UploadedCountAppend(a: seq<Doc>, b: seq<Doc>)
    ensures UploadedCount(a + b) == UploadedCount(a) + UploadedCount(b)
  {
    if a == [] {
      assert a + b == b;
    } else {
      var ab := a + b;
      assert ab[0] == a[0] && ab[1..] == a[1..] + b;
      UploadedCountAppend(a[1..], b);
      assert UploadedCount(ab) == (if IsUploaded(a[0]) then 1 else 0) + UploadedCount(ab[1..]);
    }
  }

  /**
   * `totalCount ? Math.round((uploadedCount / totalCount) * 100) : 0`, in exact
   * arithmetic: the nearest integer to 100·u/t, halves rounding up.
   */
  function CompletionPercent(u: nat, t: nat): (pct: nat)
    requires u <= t
  {
    if t == 0 then 0 else (200 * u + t) / (2 * t)
  }

  /**
   * The percentage is within 0..100 and is the nearest integer to 100·u/t
   * (halves round up): it is 0 exactly when u/t < 0.5%, and 100 exactly when
   * fewer than 0.5% of the documents are missing, so 100% can show while a
   * document is still outstanding.
   */
  lemma CompletionPercentSpec(u: nat, t: nat)
    requires u <= t && t > 0
    ensures CompletionPercent(u, t) <= 100
    ensures 2 * t * CompletionPercent(u, t) <= 200 * u + t < 2 * t * CompletionPercent(u, t) + 2 * t
    ensures CompletionPercent(u, t) == 100 <==> 200 * (t - u) <= t
    ensures CompletionPercent(u, t) == 0 <==> 200 * u < t
  {
    var p := CompletionPercent(u, t);
    var n, d := 200 * u + t, 2 * t;
    assert p == n / d;
    assert d * p <= n < d * p + d;
    if p > 100 {
      MulMono(d, 101, p);
    }
    if 200 * (t - u) <= t {
      DivUnique(n, d, 100);
    }
    if 200 * u < t {
      DivUnique(n, d, 0);
    }
  }

  /** Every document uploaded shows 100%, none uploaded shows 0%. */
  lemma CompletionPercentExtremes(u: nat, t: nat)
    requires u <= t && t > 0
    ensures u == t ==> CompletionPercent(u, t) == 100
    ensures u == 0 ==> CompletionPercent(u, t) == 0
  {
    CompletionPercentSpec(u, t);
  }

  /** The completion shown for a section: its uploaded share of its documents. */
  function SectionPercent(docs: seq<Doc>, id: string): nat {
    var sd := SectionDocs(docs, id);
    CompletionPercent(UploadedCount(sd), |sd|)
  }

  /** A section without documents shows 0%; one whose documents are all uploaded shows 100%. */
  lemma SectionPercentExtremes(docs: seq<Doc>, id: string)
    ensures SectionDocs(docs, id) == [] ==> SectionPercent(docs, id) == 0
    ensures SectionDocs(docs, id) != [] && (forall d :: d in docs && d.section == id ==> IsUploaded(d))
            ==> SectionPercent(docs, id) == 100
  {
    var sd := SectionDocs(docs, id);
    if sd != [] {
      CompletionPercentExtremes(UploadedCount(sd), |sd|);
    }
  }

  /** `String(settings.dr_show_empty_sections || '').toLowerCase() === 'true'` (not trimmed). */
  predicate ShowEmptySections(s: DataRoomAccess.Settings) {
    Lower(DataRoomAccess.SettingOr(s, "dr_show_empty_sections", "")) == "true"
  }

  /** Whether some document belongs to the section: `documents.some((d) => d.section === s.id)`. */
  predicate HasDocs(docs: seq<Doc>, id: string) {
    exists d :: d in docs && d.section == id
  }

  /** The sections, in order, that have at least one document. */
  function NonEmptySections(sections: seq<Section>, docs: seq<Doc>): (r: seq<Section>)
    ensures |r| <= |sections|
    ensures forall x :: x in r <==> x in sections && HasDocs(docs, x.id)
  {
    if sections == [] then []
    else if HasDocs(docs, sections[0].id) then [sections[0]] + NonEmptySections(sections[1..], docs)
    else NonEmptySections(sections[1..], docs)
  }

  /** The sections the menu and the category grid show. */
  function VisibleSections(s: DataRoomAccess.Settings, docs: seq<Doc>): seq<Section> {
    if ShowEmptySections(s) then Sections else NonEmptySections(Sections, docs)
  }

  /** Unless empty sections are shown, a section is listed exactly when it has a document, and then its share is well defined. */
  lemma VisibleSectionsSpec(s: DataRoomAccess.Settings, docs: seq<Doc>, x: Section)
    ensures ShowEmptySections(s) ==> VisibleSections(s, docs) == Sections
    ensures !ShowEmptySections(s) ==> (x in VisibleSections(s, docs) <==> x in Sections && HasDocs(docs, x.id))
    ensures !ShowEmptySections(s) && x in VisibleSections(s, docs) ==> SectionDocs(docs, x.id) != []
  {
    if !ShowEmptySections(s) && x in VisibleSections(s, docs) {
      var d :| d in docs && d.section == x.id;
      assert d in SectionDocs(docs, x.id);
    }
  }

  /** Every listed section keeps the order of SECTIONS: the list is a subsequence. */
  lemma {:induction false} NonEmptySectionsKeepOrder(sections: seq<Section>, docs: seq<Doc>)
    ensures IsSubsequence(NonEmptySections(sections, docs), sections)
  {
    if sections != [] {
      NonEmptySectionsKeepOrder(sections[1..], docs);
    }
  }

  /** `a` is `b` with some elements removed, order kept. */
  predicate IsSubsequence<T(==)>(a: seq<T>, b: seq<T>) {
    if a == [] then true
    else if b == [] then false
    else if a[0] == b[0] then IsSubsequence(a[1..], b[1..])
    else IsSubsequence(a, b[1..])
  }
}
