/** The DSN allowlist check, `isDsnAllowed` in src/index.ts. */
module Allowlist {
  import opened Wrappers
  import opened Strings
  import opened Runtime

  /** `list.split(',').map((e) => e.trim())`: the configured entries of one allowlist. */
  function Entries(list: string): (r: seq<string>)
    ensures |r| == |Split(list, ',')|
    ensures forall i :: 0 <= i < |r| ==> r[i] == Trim(Split(list, ',')[i])
    ensures forall e :: e in r ==> Trimmed(e)
  {
    var parts := Split(list, ',');
    seq(|parts|, i requires 0 <= i < |parts| => Trim(parts[i]))
  }

  /**
   * `isDsnAllowed(env, dsn)`: a DSN listed verbatim in the DSN allowlist is
   * allowed without looking further; otherwise the DSN is parsed as a URL and
   * allowed exactly when its host is listed in the host allowlist. A DSN that
   * reaches the URL parser and fails there throws.
   */
  function IsDsnAllowed(dsnList: string, hostList: string, parse: UrlParser, dsn: string): (r: Result<bool, Fault>)
    ensures dsn in Entries(dsnList) ==> r == Success(true)
    ensures dsn !in Entries(dsnList) && parse(dsn).None? ==> r == Failure(InvalidUrl(dsn))
    ensures dsn !in Entries(dsnList) && parse(dsn).Some? ==>
              r == Success(parse(dsn).value.host in Entries(hostList))
  {
    if dsn in Entries(dsnList) then Success(true)
    else match parse(dsn)
      case None => Failure(InvalidUrl(dsn))
      case Some(url) => Success(url.host in Entries(hostList))
  }

  /**
   * An allowlist written as comma-free items joined by commas has exactly the
   * trimmed items as its entries.
   */
  lemma EntriesOfItems(items: seq<string>)
    requires |items| >= 1
    requires forall i :: 0 <= i < |items| ==> ',' !in items[i]
    ensures |Entries(Join(items, ','))| == |items|
    ensures forall i :: 0 <= i < |items| ==> Entries(Join(items, ','))[i] == Trim(items[i])
  {
    SplitJoin(items, ',');
  }

  lemma TrimSpacedA()
    ensures Trim(" a ") == "a"
  {
    assert AllWhitespace(" ") by { assert " "[0] == ' '; }
    assert Trimmed("a") by { assert "a"[0] == 'a'; }
    TrimWrapped(" ", "a", " ");
    assert " " + "a" + " " == " a ";
  }

  lemma TrimSpacedB()
    ensures Trim(" b") == "b"
  {
    assert AllWhitespace(" ") by { assert " "[0] == ' '; }
    assert Trimmed("b") by { assert "b"[0] == 'b'; }
    TrimWrapped(" ", "b", "");
    assert " " + "b" + "" == " b";
  }

  /** A two-item allowlist has the two trimmed items as its entries. */
  lemma TwoItems(a: string, b: string)
    requires ',' !in a && ',' !in b
    ensures Entries(Join([a, b], ',')) == [Trim(a), Trim(b)]
  {
    EntriesOfItems([a, b]);
  }

  /** The configuration " a , b" permits exactly "a" and "b". */
  lemma SpacedListExample()
    ensures Entries(" a , b") == ["a", "b"]
  {
    assert Join([" a ", " b"], ',') == " a , b" by {
      assert Join([" a ", " b"][1..], ',') == " b";
    }
    TwoItems(" a ", " b");
    TrimSpacedA();
    TrimSpacedB();
  }

  /** A list holding one trimmed item without commas has that item as its only entry. */
  lemma SingleEntry(item: string)
    requires Trimmed(item) && ',' !in item
    ensures Entries(item) == [item]
  {
    assert Join([item], ',') == item;
    EntriesOfItems([item]);
    TrimFixesTrimmed(item);
  }

  /** A string with whitespace at either end is never an entry, so it can only pass by host. */
  lemma UntrimmedNeverListed(list: string, x: string)
    requires !Trimmed(x)
    ensures x !in Entries(list)
  {
  }

  /** A DSN on the DSN allowlist is allowed whatever the host allowlist says and whatever its URL parses to. */
  lemma DsnListShortCircuits(dsnList: string, hostList: string, hostList': string,
                             parse: UrlParser, parse': UrlParser, dsn: string)
    requires dsn in Entries(dsnList)
    ensures IsDsnAllowed(dsnList, hostList, parse, dsn) == Success(true)
    ensures IsDsnAllowed(dsnList, hostList, parse, dsn) == IsDsnAllowed(dsnList, hostList', parse', dsn)
  {
  }

  /** Membership in an allowlist given as items: some item, trimmed, equals the candidate. */
  lemma ListedIff(items: seq<string>, x: string)
    requires |items| >= 1 && forall i :: 0 <= i < |items| ==> ',' !in items[i]
    ensures x in Entries(Join(items, ',')) <==> exists i :: 0 <= i < |items| && Trim(items[i]) == x
  {
    EntriesOfItems(items);
    var es := Entries(Join(items, ','));
    if x in es {
      var i :| 0 <= i < |es| && es[i] == x;
      assert Trim(items[i]) == x;
    }
    if exists i :: 0 <= i < |items| && Trim(items[i]) == x {
      var i :| 0 <= i < |items| && Trim(items[i]) == x;
      assert es[i] == x;
    }
  }

  /**
   * The whole decision against allowlists given as items: allowed iff the DSN
   * equals a trimmed DSN item, or it parses and its host equals a trimmed host
   * item; a fault iff it matches no DSN item and does not parse.
   */
  lemma AllowedIffConfigured(dsnItems: seq<string>, hostItems: seq<string>, parse: UrlParser, dsn: string)
    requires |dsnItems| >= 1 && forall i :: 0 <= i < |dsnItems| ==> ',' !in dsnItems[i]
    requires |hostItems| >= 1 && forall i :: 0 <= i < |hostItems| ==> ',' !in hostItems[i]
    ensures IsDsnAllowed(Join(dsnItems, ','), Join(hostItems, ','), parse, dsn) == Success(true) <==>
              || (exists i :: 0 <= i < |dsnItems| && Trim(dsnItems[i]) == dsn)
              || (parse(dsn).Some? && exists j :: 0 <= j < |hostItems| && Trim(hostItems[j]) == parse(dsn).value.host)
    ensures IsDsnAllowed(Join(dsnItems, ','), Join(hostItems, ','), parse, dsn).Failure? <==>
              (forall i :: 0 <= i < |dsnItems| ==> Trim(dsnItems[i]) != dsn) && parse(dsn).None?
  {
    ListedIff(dsnItems, dsn);
    if parse(dsn).Some? {
      ListedIff(hostItems, parse(dsn).value.host);
    }
  }

  /**
   * An empty allowlist is not empty: `"".split(',')` is `[""]`, so its one
   * entry is the empty string. With an empty host allowlist, a DSN that parses
   * to an empty host (such as `file:///123/x`) is therefore allowed.
   */
  lemma EmptyHostListAllowsEmptyHost(dsnList: string, parse: UrlParser, dsn: string)
    requires parse(dsn).Some? && parse(dsn).value.host == ""
    ensures Entries("") == [""]
    ensures IsDsnAllowed(dsnList, "", parse, dsn) == Success(true)
  {
    SplitWithoutSeparator("", ',');
    TrimFixesTrimmed("");
  }
}
