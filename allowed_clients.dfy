/**
  `parseAllowedClients` (src/config.ts): the `OAUTH_ALLOWED_CLIENTS` grammar
  `clientId|uri,uri;clientId|uri` read into a registry of allowed OAuth
  clients and their redirect URIs.
 */
module OAuthClients {
  import opened Wrappers
  import opened JsString

  /** One parsed entry: the client id and its redirect URIs, in the order written. */
  datatype Client = Client(clientId: string, redirectUris: seq<string>)

  /** The two errors the parser throws; each names the offending entry or client. */
  datatype ClientError =
    | InvalidEntry(entry: string)          // no `|`, no client id, or nothing after the `|`
    | NoRedirectUris(clientId: string)     // the URI list holds only commas and white space

  /**
    The JavaScript `Map<string, { redirectUris: string[] }>`: `order` lists the
    keys in insertion order (a `Map` iterates that way), `redirectUris` holds
    the value of each key.
   */
  datatype Registry = Registry(order: seq<string>, redirectUris: map<string, seq<string>>) {

    /** Keys appear once in `order`, and `order` lists exactly the keys of the map. */
    ghost predicate Valid() {
      && (forall i, j :: 0 <= i < j < |order| ==> order[i] != order[j])
      && (forall id :: id in redirectUris <==> id in order)
    }

    /** `map.set(id, { redirectUris: uris })`: a new key goes last, an existing key keeps its place. */
    function Set(id: string, uris: seq<string>): (r: Registry)
      ensures Valid() ==> r.Valid()
      ensures r.redirectUris.Keys == redirectUris.Keys + {id}
      ensures r.redirectUris[id] == uris
      ensures forall k :: k in redirectUris && k != id ==> r.redirectUris[k] == redirectUris[k]
      ensures order <= r.order && |r.order| <= |order| + 1
    {
      Registry(if id in redirectUris then order else order + [id], redirectUris[id := uris])
    }
  }

  /** `new Map()` */
  const Empty := Registry([], map[])

  /** A string that can serve as a client id or a redirect URI: non-empty, trimmed, no grammar delimiter. */
  predicate IsField(s: string) {
    s != "" && IsTrimmed(s) && ';' !in s && '|' !in s
  }

  /** What the parser guarantees of every client it keeps. */
  predicate WellFormedClient(id: string, uris: seq<string>) {
    && IsField(id)
    && |uris| > 0
    && forall k :: 0 <= k < |uris| ==> IsField(uris[k]) && ',' !in uris[k]
  }

  /** Every key and every value of the registry is well formed. */
  predicate WellFormedRegistry(reg: Registry) {
    forall id :: id in reg.redirectUris ==> WellFormedClient(id, reg.redirectUris[id])
  }

  /**
    One entry (already trimmed, free of `;`): the text before the first `|` is
    the client id, the text between the first and second `|` the URI list;
    anything after a second `|` is dropped.
   */
  function ParseEntry(entry: string): (r: Result<Client, ClientError>)
    requires ';' !in entry
    ensures '|' !in entry ==> r == Failure(InvalidEntry(entry))
    ensures r.Failure? && r.error.InvalidEntry? ==> r.error.entry == entry
    ensures r.Failure? && r.error.NoRedirectUris? ==> IsField(r.error.clientId)
    ensures r.Success? ==> WellFormedClient(r.value.clientId, r.value.redirectUris)
  {
    var parts := Split(entry, '|');
    var clientId := Trim(parts[0]);
    var redirectUriList := if |parts| > 1 then Trim(parts[1]) else "";
    if clientId == "" || redirectUriList == "" then Failure(InvalidEntry(entry))
    else
      var redirectUris := Tokens(redirectUriList, ',');
      if |redirectUris| == 0 then Failure(NoRedirectUris(clientId))
      else Success(Client(clientId, redirectUris))
  }

  /** No entry holds a `;`: they are the fields of a `;` split. */
  predicate Semicolonless(entries: seq<string>) {
    forall j :: 0 <= j < |entries| ==> ';' !in entries[j]
  }

  /** Each entry parsed on its own, in order. */
  function ParseAll(entries: seq<string>): (parsed: seq<Result<Client, ClientError>>)
    requires Semicolonless(entries)
    ensures |parsed| == |entries|
  {
    seq(|entries|, j requires 0 <= j < |entries| => ParseEntry(entries[j]))
  }

  /** Every client that parsed is well formed. */
  predicate ParsedWellFormed(parsed: seq<Result<Client, ClientError>>) {
    forall j :: 0 <= j < |parsed| && parsed[j].Success? ==>
      WellFormedClient(parsed[j].value.clientId, parsed[j].value.redirectUris)
  }

  /**
    The loop of `parseAllowedClients` over the parse results: each client in
    turn is `set` into the registry, and the first failure is thrown. Parsing
    has no effects, so parsing each entry as the loop reaches it and parsing
    them all up front give the same outcome.
   */
  function Fold(reg: Registry, parsed: seq<Result<Client, ClientError>>): (r: Result<Registry, ClientError>)
    ensures reg.Valid() && r.Success? ==> r.value.Valid()
    ensures WellFormedRegistry(reg) && ParsedWellFormed(parsed) && r.Success? ==> WellFormedRegistry(r.value)
    decreases |parsed|
  {
    if |parsed| == 0 then Success(reg)
    else
      match parsed[0]
      case Failure(e) => Failure(e)
      case Success(c) =>
        assert ParsedWellFormed(parsed) ==> ParsedWellFormed(parsed[1..]) by {
          assert forall j :: 0 <= j < |parsed| - 1 ==> parsed[1..][j] == parsed[j + 1];
        }
        Fold(reg.Set(c.clientId, c.redirectUris), parsed[1..])
  }

  /** The entries parsed and set in turn; the first entry that does not parse throws. */
  function Apply(reg: Registry, entries: seq<string>): (r: Result<Registry, ClientError>)
    requires Semicolonless(entries)
    ensures reg.Valid() && r.Success? ==> r.value.Valid()
    ensures WellFormedRegistry(reg) && r.Success? ==> WellFormedRegistry(r.value)
  {
    var parsed := ParseAll(entries);
    assert ParsedWellFormed(parsed) by {
      forall j | 0 <= j < |parsed| && parsed[j].Success?
        ensures WellFormedClient(parsed[j].value.clientId, parsed[j].value.redirectUris)
      {
        assert parsed[j] == ParseEntry(entries[j]);
      }
    }
    Fold(reg, parsed)
  }

  /** The entries of a value: its `;`-separated fields, trimmed, blank ones skipped. */
  function Entries(value: string): (entries: seq<string>)
    ensures Semicolonless(entries)
    ensures forall k :: 0 <= k < |entries| ==> entries[k] != "" && IsTrimmed(entries[k])
  {
    Tokens(value, ';')
  }

  /** What `parseAllowedClients(value)` returns or throws. */
  function AllowedClients(value: Option<string>): Result<Registry, ClientError>
  {
    if value.None? || value.value == "" then Success(Empty)
    else Apply(Empty, Entries(value.value))
  }

  /** `parseAllowedClients`: the loop over the entries that fills the map in place. */
  method ParseAllowedClients(value: Option<string>) returns (r: Result<Registry, ClientError>)
    ensures r == AllowedClients(value)
  {
    if value.None? || value.value == "" {
      return Success(Registry([], map[]));
    }
    var entries := Entries(value.value);
    ghost var parsed := ParseAll(entries);
    var order: seq<string> := [];
    var table: map<string, seq<string>> := map[];
    for i := 0 to |entries|
      invariant Fold(Registry(order, table), parsed[i..]) == Apply(Empty, entries)
    {
      var result := ParseEntry(entries[i]);
      assert parsed[i..][0] == result && parsed[i..][1..] == parsed[i + 1..];
      assert Fold(Registry(order, table), parsed[i..])
             == match result
                case Failure(e) => Failure(e)
                case Success(c) => Fold(Registry(order, table).Set(c.clientId, c.redirectUris), parsed[i + 1..]);
      match result {
        case Failure(e) =>
          return Failure(e);
        case Success(client) =>
          if client.clientId !in table {
            order := order + [client.clientId];
          }
          table := table[client.clientId := client.redirectUris];
      }
    }
    return Success(Registry(order, table));
  }

  /** An unset value, an empty one, or one made only of `;` and white space gives an empty registry. */
  lemma NoEntriesGiveEmptyRegistry(value: Option<string>)
    requires value.None? || Entries(value.value) == []
    ensures AllowedClients(value) == Success(Empty)
  {
  }

  /** On success every key and value is well formed and the key order lists each key once. */
  lemma SuccessIsWellFormed(value: Option<string>, reg: Registry)
    requires AllowedClients(value) == Success(reg)
    ensures reg.Valid() && WellFormedRegistry(reg)
  {
    assert Empty.Valid() && WellFormedRegistry(Empty);
  }

  /** The first failure among the parse results is what the fold throws. */
  lemma {:induction false} FoldFirstFailure(reg: Registry, parsed: seq<Result<Client, ClientError>>, k: nat)
    requires k < |parsed| && parsed[k].Failure?
    requires forall j :: 0 <= j < k ==> parsed[j].Success?
    ensures Fold(reg, parsed) == Failure(parsed[k].error)
    decreases k
  {
    if k > 0 {
      var c := parsed[0].value;
      var rest := parsed[1..];
      assert rest[k - 1] == parsed[k];
      assert forall j :: 0 <= j < k - 1 ==> rest[j] == parsed[j + 1];
      FoldFirstFailure(reg.Set(c.clientId, c.redirectUris), rest, k - 1);
    }
  }

  /** The first entry that does not parse decides the outcome: its error, and no registry. */
  lemma FirstBadEntryDecides(reg: Registry, entries: seq<string>, k: nat)
    requires Semicolonless(entries)
    requires k < |entries| && ParseEntry(entries[k]).Failure?
    requires forall j :: 0 <= j < k ==> ParseEntry(entries[j]).Success?
    ensures Apply(reg, entries) == Failure(ParseEntry(entries[k]).error)
  {
    FoldFirstFailure(reg, ParseAll(entries), k);
  }

  /** The fold succeeds exactly when no parse result is a failure. */
  lemma {:induction false} FoldSucceedsIffAll(reg: Registry, parsed: seq<Result<Client, ClientError>>)
    ensures Fold(reg, parsed).Success? <==> forall j :: 0 <= j < |parsed| ==> parsed[j].Success?
    decreases |parsed|
  {
    if |parsed| > 0 {
      match parsed[0]
      case Failure(_) =>
      case Success(c) =>
        FoldSucceedsIffAll(reg.Set(c.clientId, c.redirectUris), parsed[1..]);
        assert forall j :: 1 <= j < |parsed| ==> parsed[1..][j - 1] == parsed[j];
    }
  }

  /** Parsing succeeds exactly when every entry parses. */
  lemma ApplySucceedsIffAllParse(reg: Registry, entries: seq<string>)
    requires Semicolonless(entries)
    ensures Apply(reg, entries).Success? <==> forall j :: 0 <= j < |entries| ==> ParseEntry(entries[j]).Success?
  {
    var parsed := ParseAll(entries);
    FoldSucceedsIffAll(reg, parsed);
    assert forall j :: 0 <= j < |entries| ==> parsed[j] == ParseEntry(entries[j]);
  }

  /** Whether some parse result is client `id`. */
  predicate Sets(parsed: seq<Result<Client, ClientError>>, id: string) {
    exists j :: 0 <= j < |parsed| && parsed[j].Success? && parsed[j].value.clientId == id
  }

  /** Whether some entry parses to client `id`. */
  predicate SetsClient(entries: seq<string>, id: string)
    requires Semicolonless(entries)
  {
    Sets(ParseAll(entries), id)
  }

  /** On success the keys are those already present plus the id of every client. */
  lemma {:induction false} FoldKeys(reg: Registry, parsed: seq<Result<Client, ClientError>>, out: Registry, id: string)
    requires Fold(reg, parsed) == Success(out)
    ensures id in out.redirectUris <==> id in reg.redirectUris || Sets(parsed, id)
    decreases |parsed|
  {
    if |parsed| > 0 {
      var c := parsed[0].value;
      var rest := parsed[1..];
      FoldKeys(reg.Set(c.clientId, c.redirectUris), rest, out, id);
      if Sets(rest, id) {
        var j :| 0 <= j < |rest| && rest[j].Success? && rest[j].value.clientId == id;
        assert rest[j] == parsed[j + 1];
      }
      if Sets(parsed, id) && c.clientId != id {
        var j :| 0 <= j < |parsed| && parsed[j].Success? && parsed[j].value.clientId == id;
        assert j > 0 && rest[j - 1] == parsed[j];
      }
    }
  }

  /** On success the keys are those already present plus the client id of every entry. */
  lemma ApplyKeys(reg: Registry, entries: seq<string>, out: Registry, id: string)
    requires Semicolonless(entries)
    requires Apply(reg, entries) == Success(out)
    ensures id in out.redirectUris <==> id in reg.redirectUris || SetsClient(entries, id)
  {
    FoldKeys(reg, ParseAll(entries), out, id);
  }

  /** A client that no parse result names keeps the URIs it had. */
  lemma {:induction false} FoldKeepsUntouched(reg: Registry, parsed: seq<Result<Client, ClientError>>, out: Registry, id: string)
    requires Fold(reg, parsed) == Success(out)
    requires id in reg.redirectUris && !Sets(parsed, id)
    ensures id in out.redirectUris && out.redirectUris[id] == reg.redirectUris[id]
    decreases |parsed|
  {
    if |parsed| > 0 {
      var c := parsed[0].value;
      var rest := parsed[1..];
      forall j | 0 <= j < |rest| && rest[j].Success?
        ensures rest[j].value.clientId != id
      {
        assert rest[j] == parsed[j + 1];
      }
      FoldKeepsUntouched(reg.Set(c.clientId, c.redirectUris), rest, out, id);
    }
  }

  /** A client that no entry sets keeps the URIs it had. */
  lemma ApplyKeepsUntouched(reg: Registry, entries: seq<string>, out: Registry, id: string)
    requires Semicolonless(entries)
    requires Apply(reg, entries) == Success(out)
    requires id in reg.redirectUris && !SetsClient(entries, id)
    ensures id in out.redirectUris && out.redirectUris[id] == reg.redirectUris[id]
  {
    FoldKeepsUntouched(reg, ParseAll(entries), out, id);
  }

  /** The last parse result naming a client decides its URIs. */
  lemma {:induction false} FoldLastWriteWins(reg: Registry, parsed: seq<Result<Client, ClientError>>, out: Registry, i: nat)
    requires Fold(reg, parsed) == Success(out)
    requires i < |parsed| && parsed[i].Success?
    requires forall j :: i < j < |parsed| && parsed[j].Success? ==> parsed[j].value.clientId != parsed[i].value.clientId
    ensures parsed[i].value.clientId in out.redirectUris
    ensures out.redirectUris[parsed[i].value.clientId] == parsed[i].value.redirectUris
    decreases i
  {
    FoldSucceedsIffAll(reg, parsed);
    var c := parsed[0].value;
    var next := reg.Set(c.clientId, c.redirectUris);
    var rest := parsed[1..];
    if i == 0 {
      forall j | 0 <= j < |rest| && rest[j].Success?
        ensures rest[j].value.clientId != c.clientId
      {
        assert rest[j] == parsed[j + 1];
      }
      FoldKeepsUntouched(next, rest, out, c.clientId);
    } else {
      assert rest[i - 1] == parsed[i];
      forall j | i - 1 < j < |rest| && rest[j].Success?
        ensures rest[j].value.clientId != rest[i - 1].value.clientId
      {
        assert rest[j] == parsed[j + 1];
      }
      FoldLastWriteWins(next, rest, out, i - 1);
    }
  }

  /** Last write wins: a client id that repeats keeps the URIs of its last entry. */
  lemma LastWriteWins(reg: Registry, entries: seq<string>, out: Registry, i: nat)
    requires Semicolonless(entries)
    requires Apply(reg, entries) == Success(out)
    requires i < |entries| && ParseEntry(entries[i]).Success?
    requires forall j :: i < j < |entries| && ParseEntry(entries[j]).Success? ==>
               ParseEntry(entries[j]).value.clientId != ParseEntry(entries[i]).value.clientId
    ensures var c := ParseEntry(entries[i]).value;
            c.clientId in out.redirectUris && out.redirectUris[c.clientId] == c.redirectUris
  {
    var parsed := ParseAll(entries);
    assert forall j :: 0 <= j < |entries| ==> parsed[j] == ParseEntry(entries[j]);
    FoldLastWriteWins(reg, parsed, out, i);
  }

  /** An entry whose text after the first `|` is blank is invalid, and the whole entry is reported. */
  lemma BlankUriListIsInvalid(id: string, list: string)
    requires '|' !in id && '|' !in list && ';' !in id + "|" + list
    requires Trim(list) == ""
    ensures ParseEntry(id + "|" + list) == Failure(InvalidEntry(id + "|" + list))
  {
    SplitEntry(id, list);
  }

  /** An entry whose text before the first `|` is blank is invalid, and the whole entry is reported. */
  lemma BlankClientIdIsInvalid(id: string, list: string)
    requires '|' !in id && '|' !in list && ';' !in id + "|" + list
    requires Trim(id) == ""
    ensures ParseEntry(id + "|" + list) == Failure(InvalidEntry(id + "|" + list))
  {
    SplitEntry(id, list);
  }

  /**
    An entry with a client id and a URI list made only of commas and white
    space fails with the missing-URI error, naming the trimmed client id.
   */
  lemma OnlyCommasGiveNoRedirectUris(id: string, list: string)
    requires '|' !in id && '|' !in list && ';' !in id + "|" + list
    requires Trim(id) != "" && Trim(list) != "" && Tokens(Trim(list), ',') == []
    ensures ParseEntry(id + "|" + list) == Failure(NoRedirectUris(Trim(id)))
  {
    SplitEntry(id, list);
  }

  /**
    Any entry with a client id and at least one URI parses to the trimmed text
    before the `|` and the trimmed, non-empty comma fields after it, in order:
    white space around either separator and empty comma fields do not matter.
   */
  lemma EntryFields(id: string, list: string)
    requires '|' !in id && '|' !in list && ';' !in id + "|" + list
    requires Trim(id) != "" && Trim(list) != "" && Tokens(Trim(list), ',') != []
    ensures ParseEntry(id + "|" + list) == Success(Client(Trim(id), Tokens(Trim(list), ',')))
  {
    SplitEntry(id, list);
  }

  /** An entry with exactly one `|` splits into the text before it and the text after it. */
  lemma SplitEntry(id: string, list: string)
    requires '|' !in id && '|' !in list
    ensures Split(id + "|" + list, '|') == [id, list]
  {
    assert id + "|" + list == id + ['|'] + list;
    SplitAtSeparator(id, list, '|');
  }

  /** Text after a second `|` never changes which client, which URIs, or which kind of error. */
  lemma ExtraBarIgnored(id: string, uris: string, extra: string)
    requires '|' !in id && '|' !in uris && ';' !in id + "|" + uris + "|" + extra
    ensures ';' !in id + "|" + uris
    ensures var long := ParseEntry(id + "|" + uris + "|" + extra);
            var short := ParseEntry(id + "|" + uris);
            && long.Success? == short.Success?
            && (long.Success? ==> long.value == short.value)
            && (long.Failure? ==> long.error.InvalidEntry? == short.error.InvalidEntry?)
            && (long.Failure? && long.error.NoRedirectUris? ==> long.error == short.error)
  {
    var shortEntry := id + "|" + uris;
    var longEntry := shortEntry + "|" + extra;
    assert forall c :: c in shortEntry ==> c in longEntry;
    assert shortEntry == id + ['|'] + uris;
    assert longEntry == id + ['|'] + (uris + ['|'] + extra);
    SplitAtSeparator(id, uris, '|');
    SplitAtSeparator(id, uris + ['|'] + extra, '|');
    SplitAtSeparator(uris, extra, '|');
  }

  /** The text of one entry for a client: `clientId|uri,uri,...`. */
  function FormatEntry(c: Client): string
  {
    c.clientId + "|" + Join(c.redirectUris, ',')
  }

  /** Parsing the text of a well-formed client gives the client back. */
  lemma ParseFormattedEntry(c: Client)
    requires WellFormedClient(c.clientId, c.redirectUris)
    ensures ';' !in FormatEntry(c)
    ensures ParseEntry(FormatEntry(c)) == Success(c)
  {
    FormattedUriList(c.redirectUris);
    EntryOfFields(c.clientId, Join(c.redirectUris, ','));
  }

  /** The comma-joined URIs of a well-formed client form one field whose tokens are those URIs. */
  lemma FormattedUriList(uris: seq<string>)
    requires |uris| > 0 && forall k :: 0 <= k < |uris| ==> IsField(uris[k]) && ',' !in uris[k]
    ensures IsField(Join(uris, ',')) && Tokens(Join(uris, ','), ',') == uris
  {
    JoinOfTrimmed(uris, ',');
    JoinAvoids(uris, ',', ';');
    JoinAvoids(uris, ',', '|');
    TokensOfJoin(uris, ',');
  }

  /** An id field, a bar and a URI-list field with at least one URI parse to that client. */
  lemma EntryOfFields(id: string, list: string)
    requires IsField(id) && IsField(list) && Tokens(list, ',') != []
    ensures ';' !in id + "|" + list
    ensures ParseEntry(id + "|" + list) == Success(Client(id, Tokens(list, ',')))
  {
    assert ';' !in id + "|" + list by {
      assert forall ch :: ch in id + "|" + list ==> ch in id || ch == '|' || ch in list;
    }
    TrimOfTrimmed(id);
    TrimOfTrimmed(list);
    EntryFields(id, list);
  }

  /** The entries of an allow-list naming `cs`, one per client, in order. */
  function FormatEntries(cs: seq<Client>): (entries: seq<string>)
    ensures |entries| == |cs|
  {
    seq(|cs|, k requires 0 <= k < |cs| => FormatEntry(cs[k]))
  }

  /** A successful parse result for each client of `cs`. */
  function Successes(cs: seq<Client>): (parsed: seq<Result<Client, ClientError>>)
    ensures |parsed| == |cs|
  {
    seq(|cs|, k requires 0 <= k < |cs| => Success(cs[k]))
  }

  /** The allow-list text naming `cs`: their entries separated by `;`. */
  function FormatClients(cs: seq<Client>): string
  {
    Join(FormatEntries(cs), ';')
  }

  /** The registry reached by setting each client of `cs` in turn. */
  function Register(reg: Registry, cs: seq<Client>): Registry
    decreases |cs|
  {
    if |cs| == 0 then reg else Register(reg.Set(cs[0].clientId, cs[0].redirectUris), cs[1..])
  }

  predicate AllWellFormed(cs: seq<Client>) {
    forall k :: 0 <= k < |cs| ==> WellFormedClient(cs[k].clientId, cs[k].redirectUris)
  }

  /** The entry text of a well-formed client is a non-empty, trimmed, `;`-free field. */
  lemma FormattedEntryIsField(c: Client)
    requires WellFormedClient(c.clientId, c.redirectUris)
    ensures var e := FormatEntry(c); e != "" && IsTrimmed(e) && ';' !in e
  {
    FormattedUriList(c.redirectUris);
    var e := FormatEntry(c);
    var list := Join(c.redirectUris, ',');
    assert e == c.clientId + "|" + list;
    assert forall ch :: ch in e ==> ch in c.clientId || ch == '|' || ch in list;
    assert e[0] == c.clientId[0];
    assert e[|e| - 1] == list[|list| - 1];
  }

  /** Folding the successful parse of each client sets each client in turn. */
  lemma {:induction false} FoldSuccesses(reg: Registry, cs: seq<Client>)
    ensures Fold(reg, Successes(cs)) == Success(Register(reg, cs))
    decreases |cs|
  {
    if |cs| > 0 {
      assert Successes(cs)[1..] == Successes(cs[1..]);
      FoldSuccesses(reg.Set(cs[0].clientId, cs[0].redirectUris), cs[1..]);
    }
  }

  /** The entries of well-formed clients parse back to those clients. */
  lemma ParseAllFormatted(cs: seq<Client>)
    requires AllWellFormed(cs)
    ensures Semicolonless(FormatEntries(cs))
    ensures ParseAll(FormatEntries(cs)) == Successes(cs)
  {
    forall k | 0 <= k < |cs|
      ensures ';' !in FormatEntries(cs)[k] && ParseEntry(FormatEntries(cs)[k]) == Success(cs[k])
    {
      ParseFormattedEntry(cs[k]);
    }
  }

  /** The fold over the entries of well-formed clients sets each client in turn. */
  lemma ApplyFormatted(reg: Registry, cs: seq<Client>)
    requires AllWellFormed(cs)
    ensures Semicolonless(FormatEntries(cs))
    ensures Apply(reg, FormatEntries(cs)) == Success(Register(reg, cs))
  {
    ParseAllFormatted(cs);
    FoldSuccesses(reg, cs);
  }

  /** Every entry of well-formed clients is a separate, trimmed, `;`-free field. */
  lemma FormattedEntriesAreFields(cs: seq<Client>)
    requires AllWellFormed(cs)
    ensures forall k :: 0 <= k < |cs| ==>
              var e := FormatEntries(cs)[k]; e != "" && IsTrimmed(e) && ';' !in e
  {
    forall k | 0 <= k < |cs|
      ensures var e := FormatEntries(cs)[k]; e != "" && IsTrimmed(e) && ';' !in e
    {
      FormattedEntryIsField(cs[k]);
    }
  }

  /**
    Writing well-formed clients out as an allow-list and parsing it back gives
    the registry that setting them one after another builds.
   */
  lemma AllowedClientsOfFormat(cs: seq<Client>)
    requires AllWellFormed(cs)
    ensures AllowedClients(Some(FormatClients(cs))) == Success(Register(Empty, cs))
  {
    var entries := FormatEntries(cs);
    ApplyFormatted(Empty, cs);
    if |cs| > 0 {
      FormattedEntriesAreFields(cs);
      TokensOfJoin(entries, ';');
      JoinOfTrimmed(entries, ';');
    }
  }

  /** The client ids of `cs`, in order. */
  function ClientIds(cs: seq<Client>): (ids: seq<string>)
  {
    if |cs| == 0 then [] else [cs[0].clientId] + ClientIds(cs[1..])
  }

  /** No two clients of `cs` share an id. */
  predicate DistinctIds(cs: seq<Client>) {
    forall i, j :: 0 <= i < j < |cs| ==> cs[i].clientId != cs[j].clientId
  }

  /** The clients after the first keep distinct ids, and none of them is the first. */
  lemma DistinctIdsTail(cs: seq<Client>)
    requires |cs| > 0 && DistinctIds(cs)
    ensures DistinctIds(cs[1..])
    ensures forall k :: 0 <= k < |cs| - 1 ==> cs[1..][k].clientId != cs[0].clientId
  {
    forall i, j | 0 <= i < j < |cs| - 1
      ensures cs[1..][i].clientId != cs[1..][j].clientId
    {
      assert cs[1..][i] == cs[i + 1] && cs[1..][j] == cs[j + 1];
    }
    forall k | 0 <= k < |cs| - 1
      ensures cs[1..][k].clientId != cs[0].clientId
    {
      assert cs[1..][k] == cs[k + 1];
    }
  }

  /** The ids of `cs` are the first id followed by the ids of the rest. */
  lemma ClientIdsCons(cs: seq<Client>)
    requires |cs| > 0
    ensures ClientIds(cs) == [cs[0].clientId] + ClientIds(cs[1..])
  {
  }

  /** The ids of `cs` are distinct and none of them is a key of `reg` yet. */
  predicate FreshIds(reg: Registry, cs: seq<Client>) {
    DistinctIds(cs) && forall k :: 0 <= k < |cs| ==> cs[k].clientId !in reg.redirectUris
  }

  /** Setting clients whose ids are distinct and new appends the ids in order. */
  lemma {:induction false} RegisterOrder(reg: Registry, cs: seq<Client>)
    requires FreshIds(reg, cs)
    ensures Register(reg, cs).order == reg.order + ClientIds(cs)
    decreases |cs|
  {
    if |cs| > 0 {
      var id := cs[0].clientId;
      var next := reg.Set(id, cs[0].redirectUris);
      var rest := ClientIds(cs[1..]);
      assert Register(next, cs[1..]).order == (reg.order + [id]) + rest by {
        NewIdsTail(reg, cs);
        RegisterOrder(next, cs[1..]);
      }
      assert ClientIds(cs) == [id] + rest by {
        ClientIdsCons(cs);
      }
      assert (reg.order + [id]) + rest == reg.order + ([id] + rest);
    }
  }

  /** After the first client is set, the others have fresh ids for the registry it gives. */
  lemma NewIdsTail(reg: Registry, cs: seq<Client>)
    requires |cs| > 0 && FreshIds(reg, cs)
    ensures var next := reg.Set(cs[0].clientId, cs[0].redirectUris);
            next.order == reg.order + [cs[0].clientId] && FreshIds(next, cs[1..])
  {
    DistinctIdsTail(cs);
    forall k | 0 <= k < |cs| - 1
      ensures cs[1..][k].clientId !in reg.redirectUris
    {
      assert cs[1..][k] == cs[k + 1];
    }
  }

  /** Setting clients whose ids are distinct records each client's URIs under its id. */
  lemma {:induction false} RegisterValues(reg: Registry, cs: seq<Client>)
    requires DistinctIds(cs)
    ensures forall k :: 0 <= k < |cs| ==>
              cs[k].clientId in Register(reg, cs).redirectUris
              && Register(reg, cs).redirectUris[cs[k].clientId] == cs[k].redirectUris
    decreases |cs|
  {
    if |cs| > 0 {
      var next := reg.Set(cs[0].clientId, cs[0].redirectUris);
      var rest := cs[1..];
      DistinctIdsTail(cs);
      RegisterValues(next, rest);
      RegisterKeeps(next, rest, cs[0].clientId);
      forall k | 1 <= k < |cs|
        ensures cs[k].clientId in Register(reg, cs).redirectUris
                && Register(reg, cs).redirectUris[cs[k].clientId] == cs[k].redirectUris
      {
        assert rest[k - 1] == cs[k];
      }
    }
  }

  /** Setting clients none of which is `id` leaves `id`'s entry as it was. */
  lemma {:induction false} RegisterKeeps(reg: Registry, cs: seq<Client>, id: string)
    requires id in reg.redirectUris
    requires forall k :: 0 <= k < |cs| ==> cs[k].clientId != id
    ensures id in Register(reg, cs).redirectUris
    ensures Register(reg, cs).redirectUris[id] == reg.redirectUris[id]
    decreases |cs|
  {
    if |cs| > 0 {
      assert forall k :: 0 <= k < |cs[1..]| ==> cs[1..][k] == cs[k + 1];
      RegisterKeeps(reg.Set(cs[0].clientId, cs[0].redirectUris), cs[1..], id);
    }
  }

  /**
    An allow-list written from well-formed clients with distinct ids parses to
    a registry that lists those ids in order, each with its own URIs.
   */
  lemma AllowedClientsOfDistinct(cs: seq<Client>)
    requires AllWellFormed(cs) && DistinctIds(cs)
    ensures AllowedClients(Some(FormatClients(cs))).Success?
    ensures var reg := AllowedClients(Some(FormatClients(cs))).value;
            && reg.order == ClientIds(cs)
            && forall k :: 0 <= k < |cs| ==>
                 cs[k].clientId in reg.redirectUris && reg.redirectUris[cs[k].clientId] == cs[k].redirectUris
  {
    AllowedClientsOfFormat(cs);
    RegisterOrder(Empty, cs);
    RegisterValues(Empty, cs);
  }
}
