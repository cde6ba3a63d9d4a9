/** CSV import: which export a header belongs to, and the credentials under it. */
module Import {
  import opened Prelude
  import opened Csv

  datatype Source = Google | Proton | OnePassword | Bitwarden | AppleKeychain | Lastpass | Generic

  datatype ImportError = Empty | NotUtf8 | UnrecognisedHeader | NoRows

  datatype ImportedRecord =
    ImportedRecord(origin: string, username: string, password: string, title: string, notes: string)

  datatype Imported = Imported(source: Source, records: seq<ImportedRecord>)

  /** The column names detection tests and mapping looks up. */
  datatype Heading =
    | Name | Url | Username | Password | Note | Notes | Email | Title | Extra | Grouping
    | LoginUri | LoginUsername | LoginPassword

  function Text(h: Heading): string {
    match h
    case Name => "name"
    case Url => "url"
    case Username => "username"
    case Password => "password"
    case Note => "note"
    case Notes => "notes"
    case Email => "email"
    case Title => "title"
    case Extra => "extra"
    case Grouping => "grouping"
    case LoginUri => "login_uri"
    case LoginUsername => "login_username"
    case LoginPassword => "login_password"
  }

  /** Column of each credential field, where the header has one. */
  datatype Mapping = Mapping(name: Option<nat>, url: Option<nat>, username: Option<nat>,
                             password: Option<nat>, notes: Option<nat>)

  // ----- header names ---------------------------------------------------------

  /** Unicode White_Space. */
  predicate IsSpace(c: char) {
    var n := c as int;
    9 <= n <= 13 || n == 0x20 || n == 0x85 || n == 0xA0 || n == 0x1680 || 0x2000 <= n <= 0x200A
    || n == 0x2028 || n == 0x2029 || n == 0x202F || n == 0x205F || n == 0x3000
  }

  function TrimStart(s: string): string {
    if s != "" && IsSpace(s[0]) then TrimStart(s[1..]) else s
  }

  function TrimEnd(s: string): string {
    if s != "" && IsSpace(s[|s| - 1]) then TrimEnd(s[..|s| - 1]) else s
  }

  function Trim(s: string): string {
    TrimEnd(TrimStart(s))
  }

  function LowerChar(c: char): char {
    if 'A' <= c <= 'Z' then (c as int + 32) as char else c
  }

  function ToLower(s: string): string {
    seq(|s|, i requires 0 <= i < |s| => LowerChar(s[i]))
  }

  predicate EqIgnoreCase(a: string, b: string) {
    |a| == |b| && forall i :: 0 <= i < |a| ==> LowerChar(a[i]) == LowerChar(b[i])
  }

  /** Nothing to trim, nothing to lower. */
  predicate IsName(s: string) {
    s != "" && forall i :: 0 <= i < |s| ==> !IsSpace(s[i]) && LowerChar(s[i]) == s[i]
  }

  lemma HeadingIsName(h: Heading)
    ensures IsName(Text(h))
  {
  }

  /** The two ways the code compares a header cell with a name are the same. */
  lemma SameComparison(cell: string, name: string)
    requires IsName(name)
    ensures ToLower(Trim(cell)) == name <==> EqIgnoreCase(Trim(cell), name)
  {
    var t := Trim(cell);
    if EqIgnoreCase(t, name) {
      forall i | 0 <= i < |t| ensures ToLower(t)[i] == name[i] {
        assert LowerChar(name[i]) == name[i];
      }
    } else if ToLower(t) == name {
      forall i | 0 <= i < |t| ensures LowerChar(t[i]) == LowerChar(name[i]) {
        assert ToLower(t)[i] == name[i];
      }
    }
  }

  predicate Has(header: Row, name: Heading) {
    exists i :: 0 <= i < |header| && ToLower(Trim(header[i])) == Text(name)
  }

  /** First column with the name. */
  function Find(header: Row, name: Heading): Option<nat> {
    FindFrom(header, name, 0)
  }

  function FindFrom(header: Row, name: Heading, i: nat): Option<nat>
    requires i <= |header|
    decreases |header| - i
  {
    if i == |header| then None
    else if EqIgnoreCase(Trim(header[i]), Text(name)) then Some(i)
    else FindFrom(header, name, i + 1)
  }

  /** Column `i` is the first one named `name`. */
  predicate FirstNamed(header: Row, name: Heading, i: nat) {
    && i < |header| && ToLower(Trim(header[i])) == Text(name)
    && forall j :: 0 <= j < i ==> ToLower(Trim(header[j])) != Text(name)
  }

  lemma {:induction false} FindFromSpec(header: Row, name: Heading, i: nat)
    requires i <= |header|
    requires forall j :: 0 <= j < i ==> ToLower(Trim(header[j])) != Text(name)
    ensures FindFrom(header, name, i).Some? <==> Has(header, name)
    ensures FindFrom(header, name, i).Some? ==> FirstNamed(header, name, FindFrom(header, name, i).value)
    decreases |header| - i
  {
    HeadingIsName(name);
    if i < |header| {
      SameComparison(header[i], Text(name));
      if !EqIgnoreCase(Trim(header[i]), Text(name)) {
        FindFromSpec(header, name, i + 1);
      }
    }
  }

  lemma {:induction false} FindSpec(header: Row, name: Heading)
    ensures Find(header, name).Some? <==> Has(header, name)
    ensures Find(header, name).Some? ==> FirstNamed(header, name, Find(header, name).value)
  {
    FindFromSpec(header, name, 0);
  }

  // ----- detection ------------------------------------------------------------

  predicate GoogleSignature(h: Row) {
    Has(h, Name) && Has(h, Url) && Has(h, Username) && Has(h, Password) && Has(h, Note)
  }

  predicate ProtonSignature(h: Row) {
    Has(h, Name) && Has(h, Url) && Has(h, Password) && (Has(h, Email) || Has(h, Note))
  }

  predicate AppleSignature(h: Row) {
    Has(h, Title) && Has(h, Url) && Has(h, Username) && Has(h, Password)
  }

  predicate BitwardenSignature(h: Row) {
    Has(h, LoginUri) && Has(h, LoginUsername) && Has(h, LoginPassword)
  }

  function DetectSource(h: Row): Option<Source> {
    if GoogleSignature(h) then Some(Google)
    else if ProtonSignature(h) then Some(Proton)
    else if AppleSignature(h) && Has(h, Notes) then Some(OnePassword)
    else if BitwardenSignature(h) then Some(Bitwarden)
    else if AppleSignature(h) then Some(AppleKeychain)
    else if Has(h, Url) && Has(h, Username) && Has(h, Password) && Has(h, Extra) && Has(h, Grouping)
      then Some(Lastpass)
    else if Has(h, Url) && Has(h, Username) && Has(h, Password) then Some(Generic)
    else None
  }

  function OrElse(a: Option<nat>, b: Option<nat>): Option<nat> {
    if a.Some? then a else b
  }

  function ColumnMapping(source: Source, h: Row): Mapping {
    match source
    case Google =>
      Mapping(Find(h, Name), Find(h, Url), Find(h, Username), Find(h, Password), Find(h, Note))
    case Proton =>
      Mapping(Find(h, Name), Find(h, Url), OrElse(Find(h, Username), Find(h, Email)),
              Find(h, Password), OrElse(Find(h, Note), Find(h, Notes)))
    case OnePassword =>
      Mapping(Find(h, Title), Find(h, Url), Find(h, Username), Find(h, Password), Find(h, Notes))
    case Bitwarden =>
      Mapping(Find(h, Name), Find(h, LoginUri), Find(h, LoginUsername),
              Find(h, LoginPassword), Find(h, Notes))
    case AppleKeychain =>
      Mapping(Find(h, Title), Find(h, Url), Find(h, Username), Find(h, Password), Find(h, Notes))
    case Lastpass =>
      Mapping(Find(h, Name), Find(h, Url), Find(h, Username), Find(h, Password), Find(h, Extra))
    case Generic =>
      Mapping(OrElse(Find(h, Name), Find(h, Title)), Find(h, Url), Find(h, Username),
              Find(h, Password), OrElse(Find(h, Notes), Find(h, Note)))
  }

  function UrlName(source: Source): Heading {
    if source == Bitwarden then LoginUri else Url
  }

  function UsernameName(source: Source): Heading {
    if source == Bitwarden then LoginUsername else Username
  }

  function PasswordName(source: Source): Heading {
    if source == Bitwarden then LoginPassword else Password
  }

  /** What detection has tested by the time it answers. */
  lemma DetectionTested(h: Row, source: Source)
    requires DetectSource(h) == Some(source)
    ensures Has(h, UrlName(source)) && Has(h, PasswordName(source))
    ensures source != Proton ==> Has(h, UsernameName(source))
  {
  }

  /** The column is found, and is the first one of that name. */
  ghost predicate FoundAs(h: Row, column: Option<nat>, name: Heading) {
    column.Some? && FirstNamed(h, name, column.value)
  }

  lemma {:induction false} FindFinds(h: Row, name: Heading)
    requires Has(h, name)
    ensures FoundAs(h, Find(h, name), name)
  {
    FindSpec(h, name);
  }

  /**
   * Detection and mapping agree: under every accepted header the url and password columns exist
   * and are the first ones bearing a name that detection tested, and so is the username column
   * except under a Proton header.
   */
  lemma {:induction false} AcceptedHeadersMap(h: Row, source: Source)
    requires DetectSource(h) == Some(source)
    ensures FoundAs(h, ColumnMapping(source, h).url, UrlName(source))
    ensures FoundAs(h, ColumnMapping(source, h).password, PasswordName(source))
    ensures source != Proton ==> FoundAs(h, ColumnMapping(source, h).username, UsernameName(source))
  {
    DetectionTested(h, source);
    FindFinds(h, UrlName(source));
    FindFinds(h, PasswordName(source));
    if source != Proton {
      FindFinds(h, UsernameName(source));
    }
  }

  /** Proton detection accepts a header with neither username nor email: then there is no column. */
  lemma {:induction false} ProtonUsername(h: Row)
    ensures ColumnMapping(Proton, h).username.Some? <==> Has(h, Username) || Has(h, Email)
    ensures Has(h, Username) ==> FoundAs(h, ColumnMapping(Proton, h).username, Username)
    ensures !Has(h, Username) && Has(h, Email) ==> FoundAs(h, ColumnMapping(Proton, h).username, Email)
  {
    FindSpec(h, Username);
    FindSpec(h, Email);
  }

  /** Which headers are accepted at all, and which source each is taken for, by their columns' names. */
  lemma SourceExactly(h: Row)
    ensures var s := DetectSource(h);
            var login := Has(h, Url) && Has(h, Username) && Has(h, Password);
            var named := Has(h, Name) && Has(h, Url) && Has(h, Password) && (Has(h, Email) || Has(h, Note));
            var bitwarden := Has(h, LoginUri) && Has(h, LoginUsername) && Has(h, LoginPassword);
            && (s.None? <==> !login && !named && !bitwarden)
            && (s == Some(Google) <==> login && Has(h, Name) && Has(h, Note))
            && (s == Some(Proton) <==> named && !(Has(h, Username) && Has(h, Note)))
            && (s == Some(OnePassword) <==> login && Has(h, Title) && Has(h, Notes) && !named)
            && (s == Some(Bitwarden) <==> bitwarden && !named && !(login && Has(h, Title) && Has(h, Notes)))
            && (s == Some(Lastpass) <==> login && Has(h, Extra) && Has(h, Grouping)
                                         && !named && !bitwarden && !Has(h, Title))
            && (s == Some(Generic) <==> login && !(Has(h, Extra) && Has(h, Grouping))
                                        && !named && !bitwarden && !Has(h, Title))
  {
  }

  /** The first column of one name, else the first of another, else none. */
  ghost predicate ReadFrom(h: Row, column: Option<nat>, name: Heading, otherwise: Heading) {
    if Has(h, name) then FoundAs(h, column, name)
    else if Has(h, otherwise) then FoundAs(h, column, otherwise)
    else column.None?
  }

  /** Where the titles and the notes are read, under every header. */
  lemma {:induction false} TitlesAndNotes(h: Row, source: Source)
    ensures var m := ColumnMapping(source, h);
            match source
            case Google => ReadFrom(h, m.name, Name, Name) && ReadFrom(h, m.notes, Note, Note)
            case Proton => ReadFrom(h, m.name, Name, Name) && ReadFrom(h, m.notes, Note, Notes)
            case OnePassword => ReadFrom(h, m.name, Title, Title) && ReadFrom(h, m.notes, Notes, Notes)
            case Bitwarden => ReadFrom(h, m.name, Name, Name) && ReadFrom(h, m.notes, Notes, Notes)
            case AppleKeychain => ReadFrom(h, m.name, Title, Title) && ReadFrom(h, m.notes, Notes, Notes)
            case Lastpass => ReadFrom(h, m.name, Name, Name) && ReadFrom(h, m.notes, Extra, Extra)
            case Generic => ReadFrom(h, m.name, Name, Title) && ReadFrom(h, m.notes, Notes, Note)
  {
    FindSpec(h, Name);
    FindSpec(h, Title);
    FindSpec(h, Note);
    FindSpec(h, Notes);
    FindSpec(h, Extra);
  }

  /** Apple's own signature is reached only without a notes column, which its exports have. */
  lemma AppleNeedsNoNotes(h: Row)
    ensures DetectSource(h) == Some(AppleKeychain)
       <==> AppleSignature(h) && !Has(h, Notes) && !ProtonSignature(h) && !BitwardenSignature(h)
  {
  }

  /**
   * First match wins, so Proton headers with username and note are taken for Google and Apple
   * headers with notes for 1Password; either way every column is mapped the same.
   */
  lemma {:induction false} ShadowedSourcesMapAlike(h: Row)
    ensures GoogleSignature(h) ==> ColumnMapping(Google, h) == ColumnMapping(Proton, h)
    ensures ColumnMapping(OnePassword, h) == ColumnMapping(AppleKeychain, h)
  {
    FindSpec(h, Username);
    FindSpec(h, Note);
  }

  // ----- records --------------------------------------------------------------

  function Pick(row: Row, column: Option<nat>): string {
    if column.Some? && column.value < |row| then row[column.value] else ""
  }

  /** `canon` is the url reduction, which rests on a foreign url parser. */
  function BuildRecord(row: Row, m: Mapping, canon: string -> string): ImportedRecord {
    ImportedRecord(canon(Pick(row, m.url)), Pick(row, m.username), Pick(row, m.password),
                   Pick(row, m.name), Pick(row, m.notes))
  }

  predicate Usable(row: Row, m: Mapping) {
    !AllEmpty(row) && !(Pick(row, m.password) == "" && Pick(row, m.username) == "")
  }

  function BuildRecords(rows: seq<Row>, m: Mapping, canon: string -> string): seq<ImportedRecord> {
    if rows == [] then []
    else
      var n := |rows| - 1;
      BuildRecords(rows[..n], m, canon)
      + (if Usable(rows[n], m) then [BuildRecord(rows[n], m, canon)] else [])
  }

  function ParseText(text: string, canon: string -> string): Result<Imported, ImportError> {
    var rows := ParseRows(text);
    if rows == [] then Err(Empty)
    else
      var source := DetectSource(rows[0]);
      if source.None? then Err(UnrecognisedHeader)
      else
        var records := BuildRecords(rows[1..], ColumnMapping(source.value, rows[0]), canon);
        if records == [] then Err(NoRows) else Ok(Imported(source.value, records))
  }

  function StripBom(bytes: seq<byte>): seq<byte> {
    if [0xEF, 0xBB, 0xBF] <= bytes then bytes[3..] else bytes
  }

  /** A byte order mark at the front is dropped, one, and nothing else. */
  lemma BomIsDropped(bytes: seq<byte>)
    ensures StripBom([0xEF, 0xBB, 0xBF] + bytes) == bytes
    ensures !([0xEF, 0xBB, 0xBF] <= bytes) ==> StripBom(bytes) == bytes
  {
    assert ([0xEF, 0xBB, 0xBF] + bytes)[..3] == [0xEF, 0xBB, 0xBF];
    assert ([0xEF, 0xBB, 0xBF] + bytes)[3..] == bytes;
  }

  method Parse(bytes: seq<byte>, utf8: seq<byte> -> Option<string>, canon: string -> string)
    returns (r: Result<Imported, ImportError>)
    ensures bytes == [] ==> r == Err(Empty)
    ensures bytes != [] && utf8(StripBom(bytes)).None? ==> r == Err(NotUtf8)
    ensures bytes != [] && utf8(StripBom(bytes)).Some?
        ==> r == ParseText(utf8(StripBom(bytes)).value, canon)
  {
    if bytes == [] {
      return Err(Empty);
    }
    var text := utf8(StripBom(bytes));
    if text.None? {
      return Err(NotUtf8);
    }
    var rows := CollectRows(text.value);
    if rows == [] {
      return Err(Empty);
    }
    var source := DetectSource(rows[0]);
    if source.None? {
      return Err(UnrecognisedHeader);
    }
    var mapping := ColumnMapping(source.value, rows[0]);
    var records := [];
    var body := rows[1..];
    for i := 0 to |body|
      invariant records == BuildRecords(body[..i], mapping, canon)
    {
      var row := body[i];
      assert body[..i + 1][..i] == body[..i];
      if AllEmpty(row) {
        continue;
      }
      var rec := BuildRecord(row, mapping, canon);
      if rec.password == "" && rec.username == "" {
        continue;
      }
      records := records + [rec];
    }
    assert body[..|body|] == body;
    if records == [] {
      return Err(NoRows);
    }
    r := Ok(Imported(source.value, records));
  }

  // ----- credentials printed under the Google header --------------------------

  datatype Credential = Credential(name: string, url: string, username: string, password: string, note: string)

  const GOOGLE_HEADER: Row := ["name", "url", "username", "password", "note"]

  function CredentialRow(c: Credential): Row {
    [c.name, c.url, c.username, c.password, c.note]
  }

  function Expected(c: Credential, canon: string -> string): ImportedRecord {
    ImportedRecord(canon(c.url), c.username, c.password, c.name, c.note)
  }

  function CredentialRows(creds: seq<Credential>): seq<Row> {
    seq(|creds|, i requires 0 <= i < |creds| => CredentialRow(creds[i]))
  }

  function ExpectedRecords(creds: seq<Credential>, canon: string -> string): seq<ImportedRecord> {
    seq(|creds|, i requires 0 <= i < |creds| => Expected(creds[i], canon))
  }

  /** `rows` is a proper printing of the header and then the credentials, one row each. */
  ghost predicate PrintsGoogle(rows: seq<Printed>, creds: seq<Credential>) {
    && |rows| == |creds| + 1
    && (forall i :: 0 <= i < |rows| ==> ProperRow(rows[i].cells))
    && Texts(rows[0].cells) == GOOGLE_HEADER
    && forall i :: 0 <= i < |creds| ==> Texts(rows[i + 1].cells) == CredentialRow(creds[i])
  }

  lemma TrimName(s: string)
    requires IsName(s)
    ensures ToLower(Trim(s)) == s
  {
    assert TrimStart(s) == s && TrimEnd(s) == s;
  }

  predicate Named(cell: string, name: Heading) {
    ToLower(Trim(cell)) == Text(name)
  }

  /** A cell that spells a name, in whatever case. */
  lemma SpelledCell(cell: string, name: Heading)
    requires ToLower(cell) == Text(name) && forall i :: 0 <= i < |cell| ==> !IsSpace(cell[i])
    ensures Named(cell, name)
  {
    assert TrimStart(cell) == cell && TrimEnd(cell) == cell;
  }

  predicate ColumnAt(h: Row, name: Heading, i: nat) {
    Has(h, name) && Find(h, name) == Some(i)
  }

  /** The columns of a header that begins with the given names. */
  lemma {:induction false} NamedColumn(h: Row, names: seq<Heading>, i: nat)
    requires i < |names| <= |h|
    requires forall j :: 0 <= j < |names| ==> Named(h[j], names[j])
    requires forall j :: 0 <= j < i ==> names[j] != names[i]
    ensures ColumnAt(h, names[i], i)
  {
    forall j | 0 <= j < i ensures ToLower(Trim(h[j])) != Text(names[i]) {
      assert Named(h[j], names[j]);
      HeadingsDiffer(names[j], names[i]);
    }
    assert Named(h[i], names[i]);
    FindSpec(h, names[i]);
  }

  lemma HeadingsDiffer(a: Heading, b: Heading)
    ensures a != b ==> Text(a) != Text(b)
  {
  }

  const GOOGLE_HEADINGS: seq<Heading> := [Name, Url, Username, Password, Note]

  /** The header begins with the names. */
  predicate Begins(h: Row, names: seq<Heading>) {
    |names| <= |h| && forall j :: 0 <= j < |names| ==> Named(h[j], names[j])
  }

  lemma {:induction false} GoogleColumn(i: nat)
    requires i < |GOOGLE_HEADINGS|
    ensures ColumnAt(GOOGLE_HEADER, GOOGLE_HEADINGS[i], i)
  {
    forall j | 0 <= j < |GOOGLE_HEADER| ensures Named(GOOGLE_HEADER[j], GOOGLE_HEADINGS[j]) {
      HeadingIsName(GOOGLE_HEADINGS[j]);
      TrimName(GOOGLE_HEADER[j]);
    }
    NamedColumn(GOOGLE_HEADER, GOOGLE_HEADINGS, i);
  }

  lemma {:induction false} GoogleHeaderMaps()
    ensures DetectSource(GOOGLE_HEADER) == Some(Google)
    ensures ColumnMapping(Google, GOOGLE_HEADER) == Mapping(Some(0), Some(1), Some(2), Some(3), Some(4))
  {
    GoogleColumn(0);
    GoogleColumn(1);
    GoogleColumn(2);
    GoogleColumn(3);
    GoogleColumn(4);
    GoogleColumns(GOOGLE_HEADER, 0, 1, 2, 3, 4);
  }

  /** Google's five names decide, wherever they stand; a Proton reading would be the same. */
  lemma GoogleColumns(h: Row, name: nat, url: nat, username: nat, password: nat, note: nat)
    requires ColumnAt(h, Name, name) && ColumnAt(h, Url, url) && ColumnAt(h, Username, username)
    requires ColumnAt(h, Password, password) && ColumnAt(h, Note, note)
    ensures DetectSource(h) == Some(Google)
    ensures ColumnMapping(Google, h) == ColumnMapping(Proton, h)
         == Mapping(Some(name), Some(url), Some(username), Some(password), Some(note))
  {
  }

  // ----- the documented Proton and Apple headers --------------------------------

  const PROTON_HEADER: Row := ["name", "url", "email", "username", "password", "note"]

  const PROTON_HEADINGS: seq<Heading> := [Name, Url, Email, Username, Password, Note]

  lemma {:induction false} ProtonColumn(more: Row, i: nat)
    requires i < |PROTON_HEADINGS|
    ensures ColumnAt(PROTON_HEADER + more, PROTON_HEADINGS[i], i)
  {
    forall j | 0 <= j < |PROTON_HEADINGS| ensures Named((PROTON_HEADER + more)[j], PROTON_HEADINGS[j]) {
      HeadingIsName(PROTON_HEADINGS[j]);
      TrimName(PROTON_HEADER[j]);
    }
    NamedColumn(PROTON_HEADER + more, PROTON_HEADINGS, i);
  }

  /** A header that begins with Proton's documented columns is taken for Google's, and read the same. */
  lemma {:induction false} ProtonIsGoogle(more: Row)
    ensures DetectSource(PROTON_HEADER + more) == Some(Google)
    ensures var m := ColumnMapping(Google, PROTON_HEADER + more);
            && m == Mapping(Some(0), Some(1), Some(3), Some(4), Some(5))
            && m == ColumnMapping(Proton, PROTON_HEADER + more)
  {
    ProtonColumn(more, 0);
    ProtonColumn(more, 1);
    ProtonColumn(more, 3);
    ProtonColumn(more, 4);
    ProtonColumn(more, 5);
    GoogleColumns(PROTON_HEADER + more, 0, 1, 3, 4, 5);
  }

  const APPLE_HEADER: Row := ["Title", "URL", "Username", "Password", "Notes", "OTPAuth"]

  const APPLE_HEADINGS: seq<Heading> := [Title, Url, Username, Password, Notes]

  lemma {:induction false} AppleCells()
    ensures Begins(APPLE_HEADER, APPLE_HEADINGS)
    ensures ToLower(Trim(APPLE_HEADER[5])) != Text(Name)
  {
    assert ToLower("Title") == "title" && ToLower("URL") == "url" && ToLower("Username") == "username";
    assert ToLower("Password") == "password" && ToLower("Notes") == "notes";
    forall j | 0 <= j < |APPLE_HEADINGS| ensures Named(APPLE_HEADER[j], APPLE_HEADINGS[j]) {
      SpelledCell(APPLE_HEADER[j], APPLE_HEADINGS[j]);
    }
    var last := APPLE_HEADER[5];
    assert TrimStart(last) == last && TrimEnd(last) == last;
  }

  /** Apple's documented header is taken for 1Password's, which reads the same columns. */
  lemma {:induction false} AppleIsOnePassword()
    ensures DetectSource(APPLE_HEADER) == Some(OnePassword)
    ensures var m := ColumnMapping(OnePassword, APPLE_HEADER);
            && m == Mapping(Some(0), Some(1), Some(2), Some(3), Some(4))
            && m == ColumnMapping(AppleKeychain, APPLE_HEADER)
  {
    AppleColumn(0);
    AppleColumn(1);
    AppleColumn(2);
    AppleColumn(3);
    AppleColumn(4);
    NoNameColumn();
    AppleColumns(APPLE_HEADER);
  }

  lemma {:induction false} AppleColumn(i: nat)
    requires i < |APPLE_HEADINGS|
    ensures ColumnAt(APPLE_HEADER, APPLE_HEADINGS[i], i)
  {
    AppleCells();
    NamedColumn(APPLE_HEADER, APPLE_HEADINGS, i);
  }

  lemma AppleColumns(h: Row)
    requires ColumnAt(h, Title, 0) && ColumnAt(h, Url, 1) && ColumnAt(h, Username, 2)
    requires ColumnAt(h, Password, 3) && ColumnAt(h, Notes, 4) && !Has(h, Name)
    ensures DetectSource(h) == Some(OnePassword)
    ensures ColumnMapping(OnePassword, h) == ColumnMapping(AppleKeychain, h)
         == Mapping(Some(0), Some(1), Some(2), Some(3), Some(4))
  {
  }

  lemma NoNameColumn()
    ensures !Has(APPLE_HEADER, Name)
  {
    AppleCells();
    forall j | 0 <= j < |APPLE_HEADER| ensures ToLower(Trim(APPLE_HEADER[j])) != Text(Name) {
      if j < 5 {
        assert Named(APPLE_HEADER[j], APPLE_HEADINGS[j]);
        HeadingsDiffer(APPLE_HEADINGS[j], Name);
      }
    }
  }

  // ----- reading the Google rows back -------------------------------------------

  /** The credentials that have a username or a password; the others are not imported. */
  function Kept(creds: seq<Credential>): seq<Credential> {
    if creds == [] then []
    else
      var n := |creds| - 1;
      Kept(creds[..n]) + if creds[n].username == "" && creds[n].password == "" then [] else [creds[n]]
  }

  lemma {:induction false} GoogleRecords(creds: seq<Credential>, m: Mapping, canon: string -> string)
    requires m == Mapping(Some(0), Some(1), Some(2), Some(3), Some(4))
    ensures BuildRecords(CredentialRows(creds), m, canon) == ExpectedRecords(Kept(creds), canon)
  {
    var rows := CredentialRows(creds);
    if creds != [] {
      var n := |creds| - 1;
      assert rows[..n] == CredentialRows(creds[..n]);
      GoogleRecords(creds[..n], m, canon);
      GoogleRecord(creds[n], m, canon);
      ExpectedMore(Kept(creds[..n]), creds[n], canon);
    }
  }

  lemma {:induction false} GoogleRecord(c: Credential, m: Mapping, canon: string -> string)
    requires m == Mapping(Some(0), Some(1), Some(2), Some(3), Some(4))
    ensures Usable(CredentialRow(c), m) <==> c.username != "" || c.password != ""
    ensures BuildRecord(CredentialRow(c), m, canon) == Expected(c, canon)
  {
    var row := CredentialRow(c);
    assert row[2] == c.username && row[3] == c.password;
    assert Pick(row, m.username) == c.username && Pick(row, m.password) == c.password;
  }

  lemma ExpectedMore(creds: seq<Credential>, c: Credential, canon: string -> string)
    ensures ExpectedRecords(creds + [c], canon) == ExpectedRecords(creds, canon) + [Expected(c, canon)]
  {
  }

  /**
   * Credentials survive the trip through a Google CSV, whatever the quoting and line ends, all but those
   * with neither username nor password.
   */
  lemma {:induction false} CredentialRoundTrip(creds: seq<Credential>, rows: seq<Printed>, canon: string -> string)
    requires PrintsGoogle(rows, creds)
    ensures ParseText(PrintRows(rows), canon)
         == if Kept(creds) == [] then Err(NoRows)
            else Ok(Imported(Google, ExpectedRecords(Kept(creds), canon)))
  {
    ParsedRows(rows, creds);
    GoogleHeaderMaps();
    GoogleRecords(creds, ColumnMapping(Google, GOOGLE_HEADER), canon);
  }

  lemma {:induction false} ParsedRows(rows: seq<Printed>, creds: seq<Credential>)
    requires PrintsGoogle(rows, creds)
    ensures ParseRows(PrintRows(rows)) == [GOOGLE_HEADER] + CredentialRows(creds)
  {
    RoundTripToEnd(rows);
    GoogleRowTexts(rows, creds);
  }

  lemma {:induction false} RoundTripToEnd(rows: seq<Printed>)
    requires forall i :: 0 <= i < |rows| ==> ProperRow(rows[i].cells)
    ensures ParseRows(PrintRows(rows)) == RowTexts(rows)
  {
    RoundTrip(rows, "");
    assert PrintRows(rows) + "" == PrintRows(rows);
    assert ParseRows("") == [] && RowTexts(rows) + [] == RowTexts(rows);
  }

  lemma {:induction false} GoogleRowTexts(rows: seq<Printed>, creds: seq<Credential>)
    requires PrintsGoogle(rows, creds)
    ensures RowTexts(rows) == [GOOGLE_HEADER] + CredentialRows(creds)
  {
    var texts, expected := RowTexts(rows), [GOOGLE_HEADER] + CredentialRows(creds);
    forall i | 0 <= i < |rows| ensures texts[i] == expected[i] {
      if i > 0 { assert Texts(rows[i - 1 + 1].cells) == CredentialRow(creds[i - 1]); }
    }
  }
}
