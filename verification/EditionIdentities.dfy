/** Which addresses name which edition, spelled out, and what the normal address of an edition keeps. */
module EditionIdentities {
  import opened Wrappers
  import opened EditionEvidence

  // --- Paths --------------------------------------------------------------------------------

  /** The path is the text, with or without one slash after it. */
  ghost predicate PathIs(path: string, text: string) {
    path == text || path == text + "/"
  }

  /** `/e/`, in either case, then one segment that ends in a hyphen and the number. */
  ghost predicate TicketSportsPath(path: string, number: string) {
    && Digits(number)
    && exists e: char, slug: string :: e in {'e', 'E'} && '/' !in slug && PathIs(path, "/" + [e] + "/" + slug + "-" + number)
  }

  /** `/evento/` and one segment. */
  ghost predicate OpenResultsPath(path: string, slug: string) {
    slug != "" && '/' !in slug && PathIs(path, "/evento/" + slug)
  }

  /** A state's two letters and the detail page, in any case. */
  ghost predicate CorridasPath(path: string, state: string) {
    exists letters: string, page: string ::
      && |letters| == 2 && Letter(letters[0]) && Letter(letters[1]) && state == [Upper(letters[0]), Upper(letters[1])]
      && state in STATES && LowerText(page) == "mostracorrida.asp" && path == "/" + letters + "/" + page
  }

  /** Exactly one parameter has the name, and it has the value. */
  ghost predicate OnlyValue(query: seq<(string, string)>, name: string, value: string) {
    exists i :: 0 <= i < |query| && query[i] == (name, value) && forall j :: 0 <= j < |query| && j != i ==> query[j].0 != name
  }

  lemma {:induction false} HyphenSplits(s: string)
    ensures AfterLastHyphen(s).None? <==> '-' !in s
    ensures AfterLastHyphen(s).Some? ==>
              exists head :: s == head + "-" + AfterLastHyphen(s).value && '-' !in AfterLastHyphen(s).value
  {
    if s != "" {
      var n := |s| - 1;
      assert s == s[..n] + [s[n]];
      if s[n] == '-' {
        assert s == s[..n] + "-" + "";
      } else {
        HyphenSplits(s[..n]);
        if AfterLastHyphen(s[..n]).Some? {
          var tail := AfterLastHyphen(s[..n]).value;
          var head :| s[..n] == head + "-" + tail && '-' !in tail;
          assert s == head + "-" + (tail + [s[n]]);
        }
      }
    }
  }

  lemma {:induction false} AfterHyphen(head: string, tail: string)
    requires '-' !in tail
    ensures AfterLastHyphen(head + "-" + tail) == Some(tail)
    decreases |tail|
  {
    var s := head + "-" + tail;
    if tail == "" {
      assert s[|s| - 1] == '-';
    } else {
      var n := |tail| - 1;
      assert tail[n] != '-' && s[|s| - 1] == tail[n];
      assert s[..|s| - 1] == head + "-" + tail[..n];
      AfterHyphen(head, tail[..n]);
      assert tail == tail[..n] + [tail[n]];
    }
  }

  lemma SlashDropped(path: string, text: string)
    requires text != "" && text[|text| - 1] != '/'
    ensures PathIs(path, text) <==> WithoutTrailingSlash(path) == text
  {
    assert (text + "/")[..|text|] == text;
    if WithoutTrailingSlash(path) == text && path != text {
      assert path == text + "/";
    }
  }

  lemma TicketSportsPathParsed(path: string, e: char, slug: string, number: string)
    requires Digits(number) && e in {'e', 'E'} && '/' !in slug && PathIs(path, "/" + [e] + "/" + slug + "-" + number)
    ensures TicketSportsId(path) == Some(number)
  {
    hide Digits, AfterLastHyphen, WithoutTrailingSlash, PathIs;
    var text := "/" + [e] + "/" + slug + "-" + number;
    DigitsOnly(number);
    assert text[|text| - 1] == number[|number| - 1];
    SlashDropped(path, text);
    assert text[3..] == slug + "-" + number;
    AfterHyphen(slug, number);
    assert text[0] == '/' && text[1] == e && text[2] == '/';
  }

  lemma DigitsOnly(number: string)
    requires Digits(number)
    ensures number != "" && '-' !in number && '/' !in number && number[|number| - 1] != '/'
  {
  }

  lemma TicketSportsPathRead(path: string, number: string)
    requires TicketSportsId(path) == Some(number)
    ensures TicketSportsPath(path, number)
  {
    hide AfterLastHyphen, WithoutTrailingSlash, PathIs;
    var short := WithoutTrailingSlash(path);
    var e, rest := short[1], short[3..];
    HyphenSplits(rest);
    var slug :| rest == slug + "-" + number && '-' !in number;
    DigitsOnly(number);
    FirstPart(rest, slug, "-" + number);
    assert short == "/" + [e] + "/" + rest;
    assert short == "/" + [e] + "/" + slug + "-" + number;
    assert short[|short| - 1] == number[|number| - 1];
    SlashDropped(path, short);
    LowerE(e);
  }

  lemma FirstPart(s: string, head: string, tail: string)
    requires s == head + tail && '/' !in s
    ensures '/' !in head
  {
    assert forall i :: 0 <= i < |head| ==> head[i] == s[i];
  }

  lemma LowerE(c: char)
    requires Lower(c) == 'e'
    ensures c in {'e', 'E'}
  {
  }

  lemma TicketSportsPathIff(path: string, number: string)
    ensures TicketSportsId(path) == Some(number) <==> TicketSportsPath(path, number)
  {
    hide TicketSportsId, PathIs, Digits;
    if TicketSportsPath(path, number) {
      var e: char, slug: string :| e in {'e', 'E'} && '/' !in slug && PathIs(path, "/" + [e] + "/" + slug + "-" + number);
      TicketSportsPathParsed(path, e, slug, number);
    }
    if TicketSportsId(path) == Some(number) {
      TicketSportsPathRead(path, number);
    }
  }

  lemma OpenResultsPathIff(path: string, slug: string)
    ensures OpenResultsSlug(path) == Some(slug) <==> OpenResultsPath(path, slug)
  {
    if OpenResultsPath(path, slug) {
      var text := "/evento/" + slug;
      assert text[|text| - 1] == slug[|slug| - 1];
      SlashDropped(path, text);
      assert text[..8] == "/evento/" && text[8..] == slug;
    }
    if OpenResultsSlug(path) == Some(slug) {
      var short := WithoutTrailingSlash(path);
      assert short == "/evento/" + slug;
      assert short[|short| - 1] == slug[|slug| - 1];
      SlashDropped(path, short);
    }
  }

  lemma CorridasPathParsed(path: string, letters: string, page: string)
    requires |letters| == 2 && Letter(letters[0]) && Letter(letters[1]) && LowerText(page) == DETAIL_PAGE
    requires path == "/" + letters + "/" + page
    ensures CorridasState(path) ==
            if [Upper(letters[0]), Upper(letters[1])] in STATES then Some([Upper(letters[0]), Upper(letters[1])]) else None
  {
    hide LowerText, Letter, Upper;
    assert path[4..] == page && path[0] == '/' && path[1] == letters[0] && path[2] == letters[1] && path[3] == '/';
    assert |page| == |LowerText(page)|;
  }

  lemma CorridasPathIff(path: string, state: string)
    ensures CorridasState(path) == Some(state) <==> CorridasPath(path, state)
  {
    hide LowerText, Letter, Upper;
    if CorridasPath(path, state) {
      var letters: string, page: string :|
        && |letters| == 2 && Letter(letters[0]) && Letter(letters[1]) && state == [Upper(letters[0]), Upper(letters[1])]
        && state in STATES && LowerText(page) == "mostracorrida.asp" && path == "/" + letters + "/" + page;
      CorridasPathParsed(path, letters, page);
    }
    if CorridasState(path) == Some(state) {
      var letters := path[1..3];
      assert path == "/" + letters + "/" + path[4..];
    }
  }

  lemma {:induction false} ValuesOf(query: seq<(string, string)>, name: string)
    ensures Values(query, name) == [] <==> forall j :: 0 <= j < |query| ==> query[j].0 != name
    ensures |Values(query, name)| == 1 ==> OnlyValue(query, name, Values(query, name)[0])
  {
    if query != [] {
      var n := |query| - 1;
      var front := query[..n];
      ValuesOf(front, name);
      if |Values(query, name)| == 1 {
        if query[n].0 == name {
          assert Values(front, name) == [];
          assert forall j :: 0 <= j < n ==> front[j].0 != name && query[j] == front[j];
        } else {
          var i :| 0 <= i < n && front[i] == (name, Values(front, name)[0]) && forall j :: 0 <= j < n && j != i ==> front[j].0 != name;
          assert query[i] == front[i] && forall j :: 0 <= j < n ==> query[j] == front[j];
        }
      }
    }
  }

  lemma {:induction false} OnlyValueOf(query: seq<(string, string)>, name: string, value: string)
    requires OnlyValue(query, name, value)
    ensures Values(query, name) == [value]
  {
    var n := |query| - 1;
    var front := query[..n];
    var i :| 0 <= i < |query| && query[i] == (name, value) && forall j :: 0 <= j < |query| && j != i ==> query[j].0 != name;
    if i < n {
      assert front[i] == (name, value) && forall j :: 0 <= j < n && j != i ==> front[j].0 != name;
      OnlyValueOf(front, name, value);
    } else {
      assert forall j :: 0 <= j < n ==> front[j].0 != name;
      ValuesOf(front, name);
    }
  }

  // --- Addresses ----------------------------------------------------------------------------

  /** An ordinary web address, without user, password or port, of the host or its `www.` name. */
  ghost predicate WebAddress(url: Url, host: string) {
    && (url.protocol == "http:" || url.protocol == "https:") && url.username == "" && url.password == "" && url.port == ""
    && (url.hostname == host || url.hostname == "www." + host)
  }

  /** The address is the page of that edition at that source. */
  ghost predicate NamesEdition(url: Url, source: string, externalId: string) {
    || (source == "ticketsports" && WebAddress(url, "ticketsports.com.br") && TicketSportsPath(url.pathname, externalId))
    || (source == "openresults" && WebAddress(url, "openresults.run")
        && exists slug :: OpenResultsPath(url.pathname, slug) && externalId == "url:" + slug)
    || (source == "corridasbr" && WebAddress(url, "corridasbr.com.br")
        && exists state, number :: CorridasPath(url.pathname, state) && OnlyValue(url.query, "escolha", number) && Digits(number)
                                   && externalId == state + ":" + number)
  }

  lemma HostIs(hostname: string, host: string)
    requires host != "" && host[0] != 'w'
    ensures WithoutWww(hostname) == host <==> hostname == host || hostname == "www." + host
  {
    assert ("www." + host)[..4] == "www." && ("www." + host)[4..] == host;
    if WithoutWww(hostname) == host && hostname != host {
      assert hostname == hostname[..4] + hostname[4..];
    }
  }

  lemma ExternalIdIff(url: Url, source: string, externalId: string)
    requires (url.protocol == "http:" || url.protocol == "https:") && url.username == "" && url.password == "" && url.port == ""
    ensures ExternalId(WithoutWww(url.hostname), url) == Some((source, externalId)) <==> NamesEdition(url, source, externalId)
  {
    hide TicketSportsPath, OpenResultsPath, CorridasPath, OnlyValue, TicketSportsId, OpenResultsSlug, CorridasState, Values,
      WithoutWww, Digits;
    HostIs(url.hostname, "ticketsports.com.br");
    HostIs(url.hostname, "openresults.run");
    HostIs(url.hostname, "corridasbr.com.br");
    DifferentHosts();
    var host := WithoutWww(url.hostname);
    if host == "ticketsports.com.br" {
      TicketSportsPathIff(url.pathname, externalId);
    } else if host == "openresults.run" {
      forall slug
        ensures OpenResultsSlug(url.pathname) == Some(slug) <==> OpenResultsPath(url.pathname, slug)
      {
        OpenResultsPathIff(url.pathname, slug);
      }
    } else if host == "corridasbr.com.br" {
      ValuesOf(url.query, "escolha");
      forall number | OnlyValue(url.query, "escolha", number)
        ensures Values(url.query, "escolha") == [number]
      {
        OnlyValueOf(url.query, "escolha", number);
      }
      forall state
        ensures CorridasState(url.pathname) == Some(state) <==> CorridasPath(url.pathname, state)
      {
        CorridasPathIff(url.pathname, state);
      }
    }
  }

  lemma DifferentHosts()
    ensures "ticketsports.com.br" != "openresults.run" && "ticketsports.com.br" != "corridasbr.com.br" && "openresults.run" != "corridasbr.com.br"
  {
    assert "ticketsports.com.br"[0] == 't' && "openresults.run"[0] == 'o' && "corridasbr.com.br"[0] == 'c';
  }

  /** An address has an identity exactly when it is the page of an edition, and then that edition's. */
  lemma IdentityIff(url: Url, source: string, externalId: string)
    ensures NamesEdition(url, source, externalId) <==>
            EditionIdentity(url).Some? && EditionIdentity(url).value.source == source && EditionIdentity(url).value.externalId == externalId
  {
    hide ExternalId, WithoutWww, Sorted, WithoutTracking, TicketSportsPath, OpenResultsPath, CorridasPath, OnlyValue;
    if (url.protocol == "http:" || url.protocol == "https:") && url.username == "" && url.password == "" && url.port == "" {
      ExternalIdIff(url, source, externalId);
    }
  }

  /** Two TicketSports numbers are two editions, however alike their addresses otherwise are. */
  lemma NumbersAreEditions(url: Url, other: Url, number: string, another: string)
    requires WebAddress(url, "ticketsports.com.br") && WebAddress(other, "ticketsports.com.br")
    requires TicketSportsPath(url.pathname, number) && TicketSportsPath(other.pathname, another)
    ensures EditionIdentity(url).Some? && EditionIdentity(other).Some?
    ensures EditionIdentity(url).value.externalId == EditionIdentity(other).value.externalId <==> number == another
  {
    hide EditionIdentity, TicketSportsPath;
    IdentityIff(url, "ticketsports", number);
    IdentityIff(other, "ticketsports", another);
  }

  // --- The normal address -------------------------------------------------------------------

  lemma {:induction false} TrackingDropped(query: seq<(string, string)>, name: string)
    ensures Values(WithoutTracking(query), name) == if StartsWith(name, "utm_") then [] else Values(query, name)
  {
    if query != [] {
      var n := |query| - 1;
      TrackingDropped(query[..n], name);
      var kept := WithoutTracking(query[..n]);
      assert (kept + [query[n]])[..|kept|] == kept;
      assert kept + [] == kept;
    }
  }

  /** The address an identity carries is the edition's page itself, over https, without `www.`, trailing
      slash and fragment; it keeps every parameter's values in order but those of tracking, sorted by name. */
  lemma NormalAddress(url: Url, name: string)
    requires EditionIdentity(url).Some?
    ensures var normal := EditionIdentity(url).value.url;
            && WebAddress(normal, normal.hostname) && normal.protocol == "https:" && normal.hash == ""
            && (url.hostname == normal.hostname || url.hostname == "www." + normal.hostname)
            && PathIs(url.pathname, normal.pathname)
            && Values(normal.query, name) == (if StartsWith(name, "utm_") then [] else Values(url.query, name))
            && forall i, j :: 0 <= i < j < |normal.query| && j == i + 1 ==> NotAfter(normal.query[i].0, normal.query[j].0)
  {
    hide ExternalId, Sorted, WithoutTracking;
    HostHasNoWww(url);
    TrackingDropped(url.query, name);
    SortedElements(WithoutTracking(url.query), name);
    SortedInOrder(WithoutTracking(url.query));
    if |url.pathname| > 0 && url.pathname[|url.pathname| - 1] == '/' {
      assert url.pathname == url.pathname[..|url.pathname| - 1] + "/";
    }
    if StartsWith(url.hostname, "www.") {
      assert url.hostname == url.hostname[..4] + url.hostname[4..];
    }
  }

  // --- Spellings ----------------------------------------------------------------------------

  /** Stored addresses of an edition are looked up by the given one and by all four of scheme and `www.`,
      each with and without a trailing slash, but for CorridasBR without. */
  lemma VariantIff(original: Url, v: Url)
    requires EditionIdentity(original).Some?
    ensures var link := EditionIdentity(original).value;
            IsVariant(original, link, v) <==>
            || v == original
            || (&& v == link.url.(protocol := v.protocol, hostname := v.hostname, pathname := v.pathname)
                && (v.protocol == "http:" || v.protocol == "https:")
                && (v.hostname == link.url.hostname || v.hostname == "www." + link.url.hostname)
                && (v.pathname == link.url.pathname || (link.source != "corridasbr" && v.pathname == link.url.pathname + "/")))
  {
    hide EditionIdentity, WithoutTrailingSlash;
    var link := EditionIdentity(original).value;
    NormalPath(original);
    var p, h := link.url.pathname, link.url.hostname;
    assert p + "" == p && "" + h == h;
    forall secure: bool, www: bool, slash: bool
      ensures Spelling(link, secure, www, slash) ==
              link.url.(protocol := if secure then "https:" else "http:", hostname := if www then "www." + h else h,
                        pathname := if slash then p + "/" else p)
    {
    }
    assert v == link.url ==> v == Spelling(link, true, false, false);
    assert Spelling(link, v.protocol == "https:", v.hostname != h, v.pathname != p) ==
           link.url.(protocol := if v.protocol == "https:" then "https:" else "http:", hostname := if v.hostname != h then "www." + h else h,
                     pathname := if v.pathname != p then p + "/" else p);
  }

  lemma NormalPath(url: Url)
    requires EditionIdentity(url).Some?
    ensures var normal := EditionIdentity(url).value.url;
            WithoutTrailingSlash(normal.pathname) == normal.pathname && normal.protocol == "https:"
  {
    hide ExternalId, Sorted, WithoutTracking;
    RecognisedPath(WithoutWww(url.hostname), url);
  }
}
