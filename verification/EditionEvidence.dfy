/**
 What identifies one edition of an event: recognised edition URLs, normalised so that every
 spelling of the same edition page is one identity, and location evidence. URLs are already
 parsed, with their query as the list of decoded parameters.
 */
module EditionEvidence {
  import opened Wrappers

  datatype Url =
    Url(protocol: string, username: string, password: string, hostname: string, port: string, pathname: string,
        query: seq<(string, string)>, hash: string)

  datatype EditionLink = EditionLink(source: string, externalId: string, url: Url)

  const TICKETSPORTS := "ticketsports"
  const OPENRESULTS := "openresults"
  const CORRIDASBR := "corridasbr"
  const DETAIL_PAGE := "mostracorrida.asp"
  const STATES := {"AC", "AL", "AM", "AP", "BA", "CE", "DF", "ES", "GO", "MA", "MG", "MS", "MT", "PA", "PB", "PE", "PI",
                   "PR", "RJ", "RN", "RO", "RR", "RS", "SC", "SE", "SP", "TO"}

  // --- Text ---------------------------------------------------------------------------------

  function Lower(c: char): char {
    if 'A' <= c <= 'Z' then c + 32 as char else c
  }

  function LowerText(s: string): (r: string)
    ensures |r| == |s|
  {
    seq(|s|, i requires 0 <= i < |s| => Lower(s[i]))
  }

  function Upper(c: char): char {
    if 'a' <= c <= 'z' then c - 32 as char else c
  }

  predicate Digits(s: string) {
    s != "" && forall i :: 0 <= i < |s| ==> '0' <= s[i] <= '9'
  }

  predicate Letter(c: char) {
    'a' <= c <= 'z' || 'A' <= c <= 'Z'
  }

  predicate StartsWith(s: string, prefix: string) {
    |prefix| <= |s| && s[..|prefix|] == prefix
  }

  function WithoutTrailingSlash(path: string): string {
    if |path| > 0 && path[|path| - 1] == '/' then path[..|path| - 1] else path
  }

  function WithoutWww(host: string): string {
    if StartsWith(host, "www.") then host[4..] else host
  }

  /** The text after the last hyphen, if there is one. */
  function AfterLastHyphen(s: string): Option<string> {
    if s == "" then None
    else if s[|s| - 1] == '-' then Some("")
    else
      var rest := AfterLastHyphen(s[..|s| - 1]);
      if rest.None? then None else Some(rest.value + [s[|s| - 1]])
  }

  /** Order of strings by their code points. */
  predicate NotAfter(a: string, b: string) {
    a == "" || (b != "" && (a[0] < b[0] || (a[0] == b[0] && NotAfter(a[1..], b[1..]))))
  }

  // --- Query parameters ---------------------------------------------------------------------

  predicate Tracking(parameter: (string, string)) {
    StartsWith(parameter.0, "utm_")
  }

  function WithoutTracking(query: seq<(string, string)>): (kept: seq<(string, string)>)
    ensures forall i :: 0 <= i < |kept| ==> !Tracking(kept[i])
  {
    if query == [] then []
    else
      var last := query[|query| - 1];
      WithoutTracking(query[..|query| - 1]) + (if Tracking(last) then [] else [last])
  }

  /** Insert after every parameter whose name does not come later, so equal names keep their order. */
  function Inserted(sorted: seq<(string, string)>, p: (string, string)): seq<(string, string)> {
    if sorted == [] || NotAfter(sorted[|sorted| - 1].0, p.0) then sorted + [p]
    else Inserted(sorted[..|sorted| - 1], p) + [sorted[|sorted| - 1]]
  }

  function Sorted(query: seq<(string, string)>): seq<(string, string)> {
    if query == [] then [] else Inserted(Sorted(query[..|query| - 1]), query[|query| - 1])
  }

  function Values(query: seq<(string, string)>, name: string): seq<string> {
    if query == [] then []
    else
      var last := query[|query| - 1];
      Values(query[..|query| - 1], name) + (if last.0 == name then [last.1] else [])
  }

  // --- Recognised routes --------------------------------------------------------------------

  function TicketSportsId(pathname: string): Option<string> {
    var path := WithoutTrailingSlash(pathname);
    if |path| < 3 || path[0] != '/' || Lower(path[1]) != 'e' || path[2] != '/' || '/' in path[3..] then None
    else
      var digits := AfterLastHyphen(path[3..]);
      if digits.Some? && Digits(digits.value) then digits else None
  }

  function OpenResultsSlug(pathname: string): Option<string> {
    var path := WithoutTrailingSlash(pathname);
    if !StartsWith(path, "/evento/") || |path| == 8 || '/' in path[8..] then None else Some(path[8..])
  }

  function CorridasState(pathname: string): Option<string> {
    if |pathname| != 4 + |DETAIL_PAGE| || pathname[0] != '/' || !Letter(pathname[1]) || !Letter(pathname[2])
       || pathname[3] != '/' || LowerText(pathname[4..]) != DETAIL_PAGE
    then None
    else
      var state := [Upper(pathname[1]), Upper(pathname[2])];
      if state in STATES then Some(state) else None
  }

  function ExternalId(host: string, url: Url): Option<(string, string)> {
    if host == "ticketsports.com.br" then
      var id := TicketSportsId(url.pathname);
      if id.Some? then Some((TICKETSPORTS, id.value)) else None
    else if host == "openresults.run" then
      var slug := OpenResultsSlug(url.pathname);
      if slug.Some? then Some((OPENRESULTS, "url:" + slug.value)) else None
    else if host == "corridasbr.com.br" then
      var state := CorridasState(url.pathname);
      var choices := Values(url.query, "escolha");
      if state.Some? && |choices| == 1 && Digits(choices[0]) then Some((CORRIDASBR, state.value + ":" + choices[0])) else None
    else None
  }

  /** The edition an address names, with the one spelling all its addresses share. */
  function EditionIdentity(url: Url): (identity: Option<EditionLink>)
  {
    if (url.protocol != "http:" && url.protocol != "https:") || url.username != "" || url.password != "" || url.port != "" then
      None
    else
      var host := WithoutWww(url.hostname);
      var id := ExternalId(host, url);
      if id.None? then None
      else
        Some(EditionLink(id.value.0, id.value.1,
          Url("https:", "", "", host, "", WithoutTrailingSlash(url.pathname), Sorted(WithoutTracking(url.query)), "")))
  }

  // --- Normalisation is idempotent ----------------------------------------------------------

  lemma {:induction false} NotAfterTotal(a: string, b: string)
    ensures NotAfter(a, b) || NotAfter(b, a)
    decreases |a|
  {
    if a != "" && b != "" && a[0] == b[0] {
      NotAfterTotal(a[1..], b[1..]);
    }
  }

  ghost predicate InOrder(query: seq<(string, string)>) {
    forall i, j :: 0 <= i < j < |query| && j == i + 1 ==> NotAfter(query[i].0, query[j].0)
  }

  lemma {:induction false} InsertedInOrder(sorted: seq<(string, string)>, p: (string, string))
    requires InOrder(sorted)
    ensures InOrder(Inserted(sorted, p))
    ensures Inserted(sorted, p) != []
    ensures Inserted(sorted, p)[|Inserted(sorted, p)| - 1] == p
            || (sorted != [] && Inserted(sorted, p)[|Inserted(sorted, p)| - 1] == sorted[|sorted| - 1])
  {
    if sorted != [] && !NotAfter(sorted[|sorted| - 1].0, p.0) {
      var n := |sorted| - 1;
      InsertedInOrder(sorted[..n], p);
      NotAfterTotal(sorted[n].0, p.0);
    }
  }

  lemma {:induction false} SortedInOrder(query: seq<(string, string)>)
    ensures InOrder(Sorted(query))
  {
    if query != [] {
      SortedInOrder(query[..|query| - 1]);
      InsertedInOrder(Sorted(query[..|query| - 1]), query[|query| - 1]);
    }
  }

  lemma {:induction false} SortedOfOrdered(query: seq<(string, string)>)
    requires InOrder(query)
    ensures Sorted(query) == query
  {
    if query != [] {
      var n := |query| - 1;
      SortedOfOrdered(query[..n]);
      assert query == query[..n] + [query[n]];
    }
  }

  lemma {:induction false} InsertedElements(sorted: seq<(string, string)>, p: (string, string), name: string)
    ensures Values(Inserted(sorted, p), name) == Values(sorted, name) + (if p.0 == name then [p.1] else [])
    ensures (forall i :: 0 <= i < |sorted| ==> !Tracking(sorted[i])) && !Tracking(p) ==>
              forall i :: 0 <= i < |Inserted(sorted, p)| ==> !Tracking(Inserted(sorted, p)[i])
  {
    if sorted == [] || NotAfter(sorted[|sorted| - 1].0, p.0) {
      assert (sorted + [p])[..|sorted|] == sorted;
    } else {
      var n := |sorted| - 1;
      InsertedElements(sorted[..n], p, name);
      var front := Inserted(sorted[..n], p);
      assert (front + [sorted[n]])[..|front|] == front;
      assert sorted[n].0 != p.0 by {
        NotAfterItself(p.0);
      }
    }
  }

  lemma {:induction false} NotAfterItself(a: string)
    ensures NotAfter(a, a)
    decreases |a|
  {
    if a != "" {
      NotAfterItself(a[1..]);
    }
  }

  /** Sorting is stable: it keeps every parameter's values in order, and adds no tracking. */
  lemma {:induction false} SortedElements(query: seq<(string, string)>, name: string)
    ensures Values(Sorted(query), name) == Values(query, name)
    ensures (forall i :: 0 <= i < |query| ==> !Tracking(query[i])) ==>
              forall i :: 0 <= i < |Sorted(query)| ==> !Tracking(Sorted(query)[i])
  {
    if query != [] {
      var n := |query| - 1;
      SortedElements(query[..n], name);
      InsertedElements(Sorted(query[..n]), query[n], name);
    }
  }

  lemma {:induction false} UntrackedValues(query: seq<(string, string)>, name: string)
    requires !StartsWith(name, "utm_")
    ensures Values(WithoutTracking(query), name) == Values(query, name)
  {
    if query != [] {
      var n := |query| - 1;
      UntrackedValues(query[..n], name);
      var kept := WithoutTracking(query[..n]);
      assert (kept + [query[n]])[..|kept|] == kept;
      assert kept + [] == kept;
    }
  }

  lemma {:induction false} UntrackedIsKept(query: seq<(string, string)>)
    requires forall i :: 0 <= i < |query| ==> !Tracking(query[i])
    ensures WithoutTracking(query) == query
  {
    if query != [] {
      var n := |query| - 1;
      UntrackedIsKept(query[..n]);
      assert query == query[..n] + [query[n]];
    }
  }

  /** A normalised query is left as it is by normalising again. */
  lemma NormalQueryKept(query: seq<(string, string)>)
    ensures var normal := Sorted(WithoutTracking(query));
            Sorted(WithoutTracking(normal)) == normal && Values(normal, "escolha") == Values(query, "escolha")
  {
    var kept := WithoutTracking(query);
    SortedElements(kept, "escolha");
    assert "escolha"[0] == 'e' && "utm_"[0] == 'u';
    assert !StartsWith("escolha", "utm_");
    UntrackedValues(query, "escolha");
    UntrackedIsKept(Sorted(kept));
    SortedInOrder(kept);
    SortedOfOrdered(Sorted(kept));
  }

  /** A recognised path has no second trailing slash, so removing one is enough. */
  lemma RecognisedPath(host: string, url: Url)
    requires ExternalId(host, url).Some?
    ensures var path := WithoutTrailingSlash(url.pathname);
            WithoutTrailingSlash(path) == path && path != "" && path[|path| - 1] != '/'
    ensures host == "corridasbr.com.br" ==> WithoutTrailingSlash(url.pathname) == url.pathname
  {
    var path := WithoutTrailingSlash(url.pathname);
    if host == "corridasbr.com.br" {
      assert LowerText(url.pathname[4..])[|DETAIL_PAGE| - 1] == 'p';
    } else if host == "openresults.run" {
      assert path[|path| - 1] == path[8..][|path| - 9];
    } else {
      assert path[3..] != "";
      assert path[|path| - 1] == path[3..][|path| - 4];
    }
  }

  /** Two addresses that differ only in scheme, `www.`, one trailing slash, order and tracking of
      the query, or fragment name the same edition. */
  lemma SameEdition(url: Url, other: Url)
    requires EditionIdentity(url).Some?
    requires other.protocol == "http:" || other.protocol == "https:"
    requires other.username == "" && other.password == "" && other.port == ""
    requires WithoutWww(other.hostname) == WithoutWww(url.hostname)
    requires Sorted(WithoutTracking(other.query)) == EditionIdentity(url).value.url.query
    requires other.pathname == EditionIdentity(url).value.url.pathname
             || (EditionIdentity(url).value.source != CORRIDASBR && other.pathname == EditionIdentity(url).value.url.pathname + "/")
    ensures EditionIdentity(other) == EditionIdentity(url)
  {
    hide ExternalId, Sorted, WithoutTracking, Values, WithoutWww;
    var host := WithoutWww(url.hostname);
    var path := WithoutTrailingSlash(url.pathname);
    IdentityHost(url);
    RecognisedPath(host, url);
    NormalQueryKept(url.query);
    NormalQueryKept(other.query);
    assert (path + "/")[..|path|] == path;
    assert WithoutTrailingSlash(other.pathname) == path;
    SameExternalId(host, url, other);
  }

  lemma IdentityHost(url: Url)
    requires EditionIdentity(url).Some?
    ensures EditionIdentity(url).value.source == CORRIDASBR <==> WithoutWww(url.hostname) == "corridasbr.com.br"
  {
    hide Sorted, WithoutTracking, Values, WithoutWww, TicketSportsId, OpenResultsSlug, CorridasState;
    assert CORRIDASBR[0] != TICKETSPORTS[0] && CORRIDASBR[0] != OPENRESULTS[0];
  }

  lemma SameExternalId(host: string, url: Url, other: Url)
    requires WithoutTrailingSlash(other.pathname) == WithoutTrailingSlash(url.pathname)
    requires host == "corridasbr.com.br" ==> other.pathname == url.pathname
    requires Values(other.query, "escolha") == Values(url.query, "escolha")
    ensures ExternalId(host, other) == ExternalId(host, url)
  {
    hide Values, CorridasState;
  }

  lemma HostHasNoWww(url: Url)
    requires EditionIdentity(url).Some?
    ensures var host := EditionIdentity(url).value.url.hostname;
            WithoutWww(host) == host && WithoutWww("www." + host) == host
  {
    var host := WithoutWww(url.hostname);
    assert ("www." + host)[..4] == "www." && ("www." + host)[4..] == host;
    assert host[0] != 'w';
  }

  /** Normalising a normalised address gives the same identity. */
  lemma IdentityIsIdempotent(url: Url)
    requires EditionIdentity(url).Some?
    ensures EditionIdentity(EditionIdentity(url).value.url) == EditionIdentity(url)
  {
    HostHasNoWww(url);
    NormalQueryKept(url.query);
    SameEdition(url, EditionIdentity(url).value.url);
  }

  // --- Query variants -----------------------------------------------------------------------

  function Spelling(link: EditionLink, secure: bool, www: bool, slash: bool): Url {
    link.url.(protocol := if secure then "https:" else "http:",
              hostname := (if www then "www." else "") + link.url.hostname,
              pathname := WithoutTrailingSlash(link.url.pathname) + (if slash then "/" else ""))
  }

  /** The spellings of a validated edition page that stored addresses are looked up by. */
  ghost predicate IsVariant(original: Url, link: EditionLink, v: Url) {
    || v == original
    || v == link.url
    || (exists secure, www, slash :: (slash ==> link.source != CORRIDASBR) && v == Spelling(link, secure, www, slash))
  }

  method EditionUrlVariants(original: Url, link: EditionLink) returns (urls: set<Url>)
    ensures forall v :: v in urls <==> IsVariant(original, link, v)
  {
    urls := {original, link.url};
    var booleans := [false, true];
    var slashes := if link.source == CORRIDASBR then [false] else [false, true];
    for p := 0 to 2
      invariant forall v :: v in urls <==> v == original || v == link.url || AddedBefore(link, v, p, 0, 0, |slashes|)
    {
      for h := 0 to 2
        invariant forall v :: v in urls <==> v == original || v == link.url || AddedBefore(link, v, p, h, 0, |slashes|)
      {
        for s := 0 to |slashes|
          invariant forall v :: v in urls <==> v == original || v == link.url || AddedBefore(link, v, p, h, s, |slashes|)
        {
          var spelling := Spelling(link, booleans[p], booleans[h], slashes[s]);
          assert Added(link, spelling, p, h, s);
          urls := urls + {spelling};
        }
      }
    }
    forall v
      ensures v in urls <==> IsVariant(original, link, v)
    {
      if secure, www, slash :| (slash ==> link.source != CORRIDASBR) && v == Spelling(link, secure, www, slash) {
        assert Added(link, v, if secure then 1 else 0, if www then 1 else 0, if slash then 1 else 0);
      }
    }
  }

  ghost predicate Added(link: EditionLink, v: Url, p: int, h: int, s: int) {
    0 <= p < 2 && 0 <= h < 2 && 0 <= s < 2 && v == Spelling(link, p == 1, h == 1, s == 1)
  }

  /** `v` was added by an iteration before (p, h, s) of the three nested loops. */
  ghost predicate AddedBefore(link: EditionLink, v: Url, p: int, h: int, s: int, slashes: int) {
    exists a: int, b: int, c: int ::
      Added(link, v, a, b, c) && c < slashes && (a < p || (a == p && (b < h || (b == h && c < s))))
  }

  /** Every variant of an edition's address normalises back to that edition. */
  lemma VariantNormalisesBack(original: Url, v: Url)
    requires EditionIdentity(original).Some?
    requires IsVariant(original, EditionIdentity(original).value, v)
    ensures EditionIdentity(v) == EditionIdentity(original)
  {
    var link := EditionIdentity(original).value;
    HostHasNoWww(original);
    NormalQueryKept(original.query);
    IdentityIsIdempotent(original);
    if v != original && v != link.url {
      var secure, www, slash :| (slash ==> link.source != CORRIDASBR) && v == Spelling(link, secure, www, slash);
      RecognisedPath(WithoutWww(original.hostname), original);
      assert "" + link.url.hostname == link.url.hostname;
      assert link.url.pathname + "" == link.url.pathname;
      SameEdition(original, v);
    }
  }

  // --- Location evidence --------------------------------------------------------------------

  datatype Location = Location(date: Option<string>, city: Option<string>, state: Option<string>, country: Option<string>)

  datatype Reason =
    | DateUnconfirmed | DateMismatch | LocationUnconfirmed | LocationConflict
    | SourceIdentityConflict | AdministrativelyRestricted | LinkUnconfirmed | LinkAmbiguous | ObservationUnconfirmed
    | ManualConflict | InUse

  predicate Present(value: Option<string>) {
    value.Some? && value.value != ""
  }

  function Day(value: Option<string>): Option<string> {
    if Present(value) then Some(if |value.value| > 10 then value.value[..10] else value.value) else None
  }

  /** Accents, case and spacing are folded by `fold`; nothing left means no value. */
  function Normalized(fold: string -> string, value: Option<string>): Option<string> {
    if value.None? || fold(value.value) == "" then None else Some(fold(value.value))
  }

  /** Both locations are complete and agree once folded. */
  ghost predicate SamePlaceAndDay(fold: string -> string, a: Location, b: Location) {
    && Day(a.date).Some? && Day(a.date) == Day(b.date)
    && Normalized(fold, a.city).Some? && Normalized(fold, a.city) == Normalized(fold, b.city)
    && Normalized(fold, a.state).Some? && Normalized(fold, a.state) == Normalized(fold, b.state)
    && Normalized(fold, a.country).Some? && Normalized(fold, a.country) == Normalized(fold, b.country)
  }

  predicate Differ(a: Option<string>, b: Option<string>) {
    a.Some? && b.Some? && a != b
  }

  ghost predicate PlacesConflict(fold: string -> string, a: Location, b: Location) {
    || Differ(Normalized(fold, a.city), Normalized(fold, b.city))
    || Differ(Normalized(fold, a.state), Normalized(fold, b.state))
    || Differ(Normalized(fold, a.country), Normalized(fold, b.country))
  }

  ghost predicate PlaceUnknown(fold: string -> string, a: Location) {
    Normalized(fold, a.city).None? || Normalized(fold, a.state).None? || Normalized(fold, a.country).None?
  }

  /** What is wrong between two dates and places: dates come first, and a conflict before a gap. */
  ghost predicate LocationObjection(fold: string -> string, a: Location, b: Location, reason: Reason) {
    match reason
    case DateUnconfirmed => !Present(a.date) || !Present(b.date)
    case DateMismatch => Differ(Day(a.date), Day(b.date))
    case LocationConflict => Day(a.date).Some? && Day(a.date) == Day(b.date) && PlacesConflict(fold, a, b)
    case LocationUnconfirmed =>
      && Day(a.date).Some? && Day(a.date) == Day(b.date) && !PlacesConflict(fold, a, b)
      && (PlaceUnknown(fold, a) || PlaceUnknown(fold, b))
    case _ => false
  }

  method EditionLocationEvidence(fold: string -> string, left: Location, right: Location) returns (r: Option<Reason>)
    ensures r.None? <==> SamePlaceAndDay(fold, left, right)
    ensures forall reason :: r == Some(reason) <==> LocationObjection(fold, left, right, reason)
  {
    if !Present(left.date) || !Present(right.date) {
      return Some(DateUnconfirmed);
    }
    if Day(left.date) != Day(right.date) {
      return Some(DateMismatch);
    }
    var as', bs := [left.city, left.state, left.country], [right.city, right.state, right.country];
    var incomplete := false;
    for n := 0 to 3
      invariant forall i :: 0 <= i < n ==> !Differ(Normalized(fold, as'[i]), Normalized(fold, bs[i]))
      invariant incomplete <==> exists i :: 0 <= i < n && (Normalized(fold, as'[i]).None? || Normalized(fold, bs[i]).None?)
    {
      var a, b := Normalized(fold, as'[n]), Normalized(fold, bs[n]);
      if a.None? || b.None? {
        incomplete := true;
      } else if a != b {
        assert Differ(Normalized(fold, as'[n]), Normalized(fold, bs[n]));
        return Some(LocationConflict);
      }
    }
    assert forall i :: 0 <= i < 3 ==> !Differ(Normalized(fold, as'[i]), Normalized(fold, bs[i]));
    assert as'[0] == left.city && as'[1] == left.state && as'[2] == left.country;
    r := if incomplete then Some(LocationUnconfirmed) else None;
  }
}
