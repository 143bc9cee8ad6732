/**
 * get-consultations.py: the uptime monitor's site list, built from the
 * fetched consultations. Closed consultations (status `C`) are dropped; each
 * remaining profile page URL loses every `:` and newline, becomes both the
 * site's `name` and its `url`, and rows without a URL are dropped. The list
 * replaces the `sites` entry of the monitor's configuration.
 */
module Monitor {
  import opened Wrappers
  import opened Frames

  /** One entry of the `sites` list: exactly the keys `name` and `url`. */
  datatype Site = Site(name: string, url: string)

  /** A top-level entry of the configuration: the site list, or any other setting, kept as it is. */
  datatype Setting = SiteList(sites: seq<Site>) | Opaque(text: string)

  type Config = map<string, Setting>

  const STATUS := "status"
  const TITLE := "title_en"
  const PROFILE := "profile_page_en"
  const CLOSED := Text("C")

  /** `str.replace(c, '')`: every occurrence of `c` removed, the other characters kept in order. */
  function Strip(s: string, c: char): (r: string)
    ensures c !in r
    ensures forall x :: x != c ==> multiset(r)[x] == multiset(s)[x]
    ensures |r| <= |s|
  {
    if s == [] then []
    else
      var rest := Strip(s[1..], c);
      assert s == [s[0]] + s[1..];
      if s[0] == c then rest else [s[0]] + rest
  }

  /** Removing a character that does not occur changes nothing. */
  lemma {:induction false} StripAbsent(s: string, c: char)
    requires c !in s
    ensures Strip(s, c) == s
  {
    if s != [] {
      StripAbsent(s[1..], c);
    }
  }

  /** Removal works character by character, so the kept characters stay in their order. */
  lemma {:induction false} StripConcat(a: string, b: string, c: char)
    ensures Strip(a + b, c) == Strip(a, c) + Strip(b, c)
  {
    if a == [] {
      assert a + b == b;
    } else {
      assert (a + b)[0] == a[0] && (a + b)[1..] == a[1..] + b;
      StripConcat(a[1..], b, c);
    }
  }

  /** Lines 24-25: the URL without `:` and without newlines. */
  function CleanUrl(u: string): string
  {
    Strip(Strip(u, ':'), '\n')
  }

  /**
   * Cleaning deletes `:` and newlines character by character: a single
   * character is kept exactly when it is neither, and cleaning a
   * concatenation cleans each part, so the other characters keep their order.
   */
  lemma {:induction false} CleanUrlConcat(a: string, b: string)
    ensures CleanUrl(a + b) == CleanUrl(a) + CleanUrl(b)
  {
    StripConcat(a, b, ':');
    StripConcat(Strip(a, ':'), Strip(b, ':'), '\n');
  }

  /** A single character survives cleaning exactly when it is neither `:` nor a newline. */
  lemma CleanUrlChar(x: char)
    ensures CleanUrl([x]) == if x == ':' || x == '\n' then [] else [x]
  {
  }

  /**
   * A cleaned URL holds no `:` and no newline, every other character keeps
   * its count, and cleaning it again changes nothing.
   */
  lemma CleanUrlSpec(u: string)
    ensures ':' !in CleanUrl(u) && '\n' !in CleanUrl(u)
    ensures forall x :: x != ':' && x != '\n' ==> multiset(CleanUrl(u))[x] == multiset(u)[x]
    ensures CleanUrl(CleanUrl(u)) == CleanUrl(u)
  {
    var inner := Strip(u, ':');
    var once := CleanUrl(u);
    assert multiset(inner)[':'] == 0;
    assert multiset(once)[':'] == 0;
    StripAbsent(once, ':');
    StripAbsent(once, '\n');
  }

  /**
   * One row's contribution, in the order of lines 18-29: nothing for a
   * closed consultation or a missing URL, otherwise one site whose name is
   * the cleaned URL with its newlines removed once more.
   */
  function SiteOf(r: Row): (sites: seq<Site>)
    ensures |sites| <= 1
    ensures sites != [] <==> Get(r, STATUS) != CLOSED && Get(r, PROFILE).Text?
    ensures sites != [] ==> sites[0] == Site(CleanUrl(Get(r, PROFILE).s), CleanUrl(Get(r, PROFILE).s))
    ensures forall s :: s in sites ==> ':' !in s.url && '\n' !in s.url
  {
    if Get(r, STATUS) == CLOSED then []
    else
      match Get(r, PROFILE)
      case Null => []
      case Text(u) =>
        var url := CleanUrl(u);
        CleanUrlSpec(u);
        StripAbsent(url, '\n');
        [Site(Strip(url, '\n'), url)]
  }

  /** Lines 18-29 over all rows, in input order. */
  function SitesOf(rows: seq<Row>): (sites: seq<Site>)
    ensures |sites| <= |rows|
    ensures forall s :: s in sites ==> s.name == s.url && ':' !in s.url && '\n' !in s.url
  {
    if rows == [] then []
    else
      SiteOf(rows[0]) + SitesOf(rows[1..])
  }

  /** The site list is built row by row: it commutes with splitting the input, so input order is kept. */
  lemma {:induction false} SitesOfConcat(a: seq<Row>, b: seq<Row>)
    ensures SitesOf(a + b) == SitesOf(a) + SitesOf(b)
  {
    if a == [] {
      assert a + b == b;
    } else {
      assert (a + b)[0] == a[0] && (a + b)[1..] == a[1..] + b;
      SitesOfConcat(a[1..], b);
    }
  }

  /** A row the site list keeps: not closed, and with a profile page URL. */
  predicate Listed(r: Row)
  {
    Get(r, STATUS) != CLOSED && Get(r, PROFILE).Text?
  }

  /** Every site comes from a listed row, as that row's cleaned URL. */
  lemma {:induction false} SitesOfOrigin(rows: seq<Row>, s: Site)
    requires s in SitesOf(rows)
    ensures exists i :: 0 <= i < |rows| && Listed(rows[i]) && s == Site(CleanUrl(Get(rows[i], PROFILE).s), CleanUrl(Get(rows[i], PROFILE).s))
  {
    if s in SiteOf(rows[0]) {
      assert Listed(rows[0]);
    } else {
      SitesOfOrigin(rows[1..], s);
      var i :| 0 <= i < |rows[1..]| && Listed(rows[1..][i])
        && s == Site(CleanUrl(Get(rows[1..][i], PROFILE).s), CleanUrl(Get(rows[1..][i], PROFILE).s));
      assert rows[1..][i] == rows[i + 1];
    }
  }

  /** Every listed row contributes its site. */
  lemma {:induction false} SitesOfComplete(rows: seq<Row>, i: nat)
    requires i < |rows| && Listed(rows[i])
    ensures Site(CleanUrl(Get(rows[i], PROFILE).s), CleanUrl(Get(rows[i], PROFILE).s)) in SitesOf(rows)
  {
    if i > 0 {
      assert rows[1..][i - 1] == rows[i];
      SitesOfComplete(rows[1..], i - 1);
    }
  }

  /**
   * The whole script on a fetched frame: the `sites` entry is replaced
   * wholesale by the site list and every other top-level entry is kept.
   * Fails, as the KeyErrors of lines 18 and 21 do, when a column it reads is
   * missing.
   */
  function Refresh(config: Config, snapshot: Frame): (r: Result<Config, Error>)
    ensures r.Err? <==> STATUS !in snapshot.columns || TITLE !in snapshot.columns || PROFILE !in snapshot.columns
    ensures r.Ok? ==> "sites" in r.value && r.value["sites"] == SiteList(SitesOf(snapshot.rows))
    ensures r.Ok? ==> forall k :: k != "sites" ==> (k in r.value <==> k in config)
    ensures r.Ok? ==> forall k :: k != "sites" && k in config ==> r.value[k] == config[k]
  {
    if STATUS !in snapshot.columns then Err(MissingColumn(STATUS))
    else if TITLE !in snapshot.columns then Err(MissingColumn(TITLE))
    else if PROFILE !in snapshot.columns then Err(MissingColumn(PROFILE))
    else Ok(config["sites" := SiteList(SitesOf(snapshot.rows))])
  }
}
