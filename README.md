# Authenticated MCP server configuration, modelled in Dafny

This project models how the scaffold's `src/config.ts` turns the process
environment into the server's configuration record. The steps run in source
order, and every `throw` of the source becomes a `Failure` that ends the
pipeline:

1. The environment is checked against the zod schema. `AUTH0_ISSUER` is
   required and must be a URL. `RESOURCE_SERVER_URL` must be a URL when it is
   set. Every offending field is reported together.
2. The port is read with `Number.parseInt(PORT ?? "8788", 10)`. NaN is an error.
3. The issuer gets a `/` appended unless it already ends in one.
4. The trend-data directory is `TREND_DATA_DIR`, resolved against the working
   directory. When that is unset or empty, it is
   `synthetic_financial_data/web_search_trends` under the directory three
   levels above the module file.
5. The expected audiences are the comma fields of `JWT_AUDIENCES`, trimmed,
   with empty fields dropped. When none remain, the raw `RESOURCE_SERVER_URL`
   is used, or else `http://localhost:<port>`.
6. `OAUTH_ALLOWED_CLIENTS` is parsed into an insertion-ordered map from
   client id to redirect URIs. Its grammar is `id|uri,uri;id|uri`.
7. The record is assembled. `new URL` can still throw here: first for a
   non-empty `SERVICE_DOCUMENTATION_URL`, then for the resource server URL.

Modules:

- `Wrappers`: `Option` and `Result`.
- `JsString`: the JavaScript string built-ins the code relies on. These are
  `trim`, over ECMAScript white space and line terminators, `split` on one
  character, and the recurring split → trim → drop-empty idiom, which is
  `Tokens`. `Join` is not used by the code: it is the model's inverse of
  `split`, used to state the round trips.
- `JsNumber`: `Number.parseInt(s, 10)`, with NaN as `None`, and the decimal
  text of an integer, as a template literal writes it.
- `OAuthClients`: `parseAllowedClients`, in two forms:
  - `AllowedClients`, a fold over the entries that specifies the parser.
  - `ParseAllowedClients`, the loop that sets each entry into the map, proved
    equal to the fold.

  A JavaScript `Map` is a `Registry`: the keys in insertion order plus a
  `map` from each key to its value.
- `Config`: the schema, the derived fields, the pipeline `Resolve`, and its
  statement-by-statement form `LoadConfig`.
- `ConfigExamples`: worked example inputs, proved from the general
  lemmas.

Collaborators the module calls but does not define are parameters bundled in
`Config.Platform`:

- whether the WHATWG URL parser accepts a string, which is also what zod's
  `.url()` checks;
- `path.resolve`;
- the working directory;
- the directory derived from `import.meta.url`.

Where the code's behaviour may surprise a reader, the model follows the code:

- A non-empty `SERVICE_DOCUMENTATION_URL` that is not a URL makes
  `new URL(...)` at line 93 throw. It is not silently left absent.
- `PORT=""` is an error rather than the default, because `??` only replaces
  `undefined` and `parseInt("")` is NaN.
- An issuer that already ends in `//` is kept as it is. Only a missing final
  slash is added, so "exactly one trailing slash" does not hold for such input.
- The localhost default resource server URL is itself passed to `new URL`, so
  the pipeline can reject it, for example for an out-of-range port.
- In an allow-list entry, anything after a second `|` is dropped.
- A client id that repeats keeps the URIs of its last entry.

## Model

| member | source | states |
|---|---|---|
| `Config.SchemaIssues` | typescript-authenticated-mcp-server-scaffold/src/config.ts:8-19 | `AUTH0_ISSUER` is reported missing exactly when absent, and not-a-URL exactly when present and rejected. `RESOURCE_SERVER_URL` is optional: it is never reported missing, and is reported as not-a-URL exactly when present and rejected. No other field is ever reported, and no issue is reported twice. There are no issues exactly when the issuer is a URL and any resource server URL is one too. |
| `Config.ValidateSchema` | typescript-authenticated-mcp-server-scaffold/src/config.ts:21-28 | `safeParse` fails exactly when there is an issue, and then carries all of them. On success every field is the environment's value for its variable (absent stays absent), the issuer is present and is a URL, and a resource server URL, if present, is a URL. |
| `Config.ResolvePort` | typescript-authenticated-mcp-server-scaffold/src/config.ts:30-36 | An unset `PORT` gives 8788. A set `PORT` fails with `PortNotInteger` exactly when `parseInt` gives NaN; otherwise the port is what `parseInt` read. |
| `JsNumber.ParseInt` | typescript-authenticated-mcp-server-scaffold/src/config.ts:32 | `Number.parseInt(s, 10)`, with NaN as `None`. It has no contract of its own: `ParseIntAccepts` and `ParseIntRejects` together fix its result on every input. |
| `JsNumber.IntToDecimal` | typescript-authenticated-mcp-server-scaffold/src/config.ts:32 | The template text of an integer starts with `-` exactly for a negative number. The rest is a non-empty run of digits with no leading zero. `ParseIntOfIntToDecimal` shows that it parses back. |
| `JsNumber.ParseIntAccepts` | typescript-authenticated-mcp-server-scaffold/src/config.ts:32 | `parseInt(s, 10)` reads leading white space, then an optional sign, then a digit run, and ignores the rest. The result is the run's value, negated after `-`. |
| `JsNumber.ParseIntRejects` | typescript-authenticated-mcp-server-scaffold/src/config.ts:32-34 | `parseInt` is NaN when no digit follows the white space and the optional sign. |
| `JsNumber.ParseIntOfIntToDecimal` | typescript-authenticated-mcp-server-scaffold/src/config.ts:30-32 | The decimal text of any integer, including `${DEFAULT_PORT}`, parses back to that integer. |
| `JsNumber.DecimalValueOfNatToDecimal` | typescript-authenticated-mcp-server-scaffold/src/config.ts:32 | The digits of a natural number denote that number. |
| `Config.NormalizeIssuer` | typescript-authenticated-mcp-server-scaffold/src/config.ts:38 | The result ends in `/`. It extends the issuer by at most one character. It equals the issuer exactly when the issuer already ends in `/`. |
| `Config.NormalizeIssuerIdempotent` | typescript-authenticated-mcp-server-scaffold/src/config.ts:38 | Normalising a normalised issuer changes nothing. |
| `Config.DefaultTrendDataDir` | typescript-authenticated-mcp-server-scaffold/src/config.ts:40-44 | The default directory is `synthetic_financial_data/web_search_trends` resolved from the anchor directory, three `dirname`s above the module file. It has no contract of its own: `TrendDataDirIgnoresCwdWhenUnset` states that it does not depend on the working directory. |
| `Config.TrendDataDir` | typescript-authenticated-mcp-server-scaffold/src/config.ts:46 | The directory selection. It has no contract of its own: `TrendDataDirFollowsVariable` and `TrendDataDirIgnoresCwdWhenUnset` cover the set and the unset case. |
| `Config.TrendDataDirFollowsVariable` | typescript-authenticated-mcp-server-scaffold/src/config.ts:46 | A non-empty `TREND_DATA_DIR` is resolved against the working directory, and the anchor directory plays no part. |
| `Config.TrendDataDirIgnoresCwdWhenUnset` | typescript-authenticated-mcp-server-scaffold/src/config.ts:40-46 | When `TREND_DATA_DIR` is unset or empty, the directory is the module-anchored default and does not depend on the working directory. |
| `Config.LocalhostUrl` | typescript-authenticated-mcp-server-scaffold/src/config.ts:56 | The default URL is `http://localhost:` followed by text that parses back to the port. |
| `Config.ListedAudiences` | typescript-authenticated-mcp-server-scaffold/src/config.ts:50-53 | Every listed audience is non-empty, trimmed and comma-free. |
| `Config.Audiences` | typescript-authenticated-mcp-server-scaffold/src/config.ts:50-57 | There is always at least one audience. `ListedAudiencesAreUsed` and `AudienceFallback` state which ones. |
| `Config.ExpectedAudiences` | typescript-authenticated-mcp-server-scaffold/src/config.ts:50-57 | The array built and pushed to equals the audience specification `Audiences` and is never empty. |
| `Config.AudiencesNeverEmpty` | typescript-authenticated-mcp-server-scaffold/src/config.ts:55-57 | At least one audience is always expected. |
| `Config.ListedAudiencesAreUsed` | typescript-authenticated-mcp-server-scaffold/src/config.ts:50-53 | When `JWT_AUDIENCES` lists a field, the audiences are exactly the listed fields. Each is non-empty, trimmed and comma-free. |
| `Config.AudienceFallback` | typescript-authenticated-mcp-server-scaffold/src/config.ts:55-57 | When nothing is listed, the single audience is the raw `RESOURCE_SERVER_URL`, or else `http://localhost:<port>`. |
| `JsString.Trim` | typescript-authenticated-mcp-server-scaffold/src/config.ts:52 | `trim` gives a string with no white space at either end. It is a slice of the input, and everything cut from either side is white space. |
| `JsString.TrimIdempotent` | typescript-authenticated-mcp-server-scaffold/src/config.ts:52 | Trimming twice is trimming once. |
| `JsString.TrimStripsSurroundingWhiteSpace` | typescript-authenticated-mcp-server-scaffold/src/config.ts:52 | Trimming white space around a trimmed core gives that core. |
| `JsString.Split` | typescript-authenticated-mcp-server-scaffold/src/config.ts:51 | `split` gives at least one piece. No piece contains the separator. Every character of a piece comes from the input. Without the separator, the input is the only piece. |
| `JsString.SplitAtSeparator` | typescript-authenticated-mcp-server-scaffold/src/config.ts:51 | Splitting `x + sep + y` gives the pieces of `x` followed by those of `y`. |
| `JsString.JoinSplit` | typescript-authenticated-mcp-server-scaffold/src/config.ts:51 | Joining the pieces of a split with the separator restores the input. |
| `JsString.SplitJoin` | typescript-authenticated-mcp-server-scaffold/src/config.ts:51 | Splitting the join of separator-free pieces gives the pieces back. |
| `JsString.Tokens` | typescript-authenticated-mcp-server-scaffold/src/config.ts:50-53 | Split → trim → drop-empty gives fields that are non-empty, trimmed and separator-free, and whose characters all come from the input. |
| `JsString.TokensOfJoin` | typescript-authenticated-mcp-server-scaffold/src/config.ts:64-67 | Split → trim → drop-empty inverts joining non-empty, trimmed, separator-free fields. |
| `JsString.NonEmptyTrimmedAppend` | typescript-authenticated-mcp-server-scaffold/src/config.ts:52-53 | Trim-and-filter distributes over concatenation, so order is kept. |
| `JsString.NonEmptyTrimmedMembers` | typescript-authenticated-mcp-server-scaffold/src/config.ts:52-53 | A string survives trim-and-filter exactly when it is the non-empty trim of some input piece. |
| `OAuthClients.Registry.Set` | typescript-authenticated-mcp-server-scaffold/src/config.ts:83 | `map.set` keeps the registry consistent, with each key listed once and order matching the keys. It adds the key, stores the new value and leaves other keys unchanged. An existing key keeps its position; a new key goes last. |
| `OAuthClients.ParseEntry` | typescript-authenticated-mcp-server-scaffold/src/config.ts:72-82 | An entry without a bar is invalid and reported whole. An invalid-entry error names the entry. A missing-URI error names a well-formed client id. A parsed client has a well-formed id and at least one well-formed URI. |
| `OAuthClients.Entries` | typescript-authenticated-mcp-server-scaffold/src/config.ts:64-67 | The entries of a value are non-empty, trimmed and free of `;`. |
| `OAuthClients.ParseFormattedEntry` | typescript-authenticated-mcp-server-scaffold/src/config.ts:72-83 | Parsing the entry text (id, bar, comma-joined URIs) written from a well-formed client gives that client back. |
| `OAuthClients.ExtraBarIgnored` | typescript-authenticated-mcp-server-scaffold/src/config.ts:72 | Text after a second bar changes neither the client, nor its URIs, nor the kind of error. |
| `OAuthClients.BlankUriListIsInvalid` | typescript-authenticated-mcp-server-scaffold/src/config.ts:72-75 | An entry whose text after the bar is blank fails as an invalid entry that names the whole entry. |
| `OAuthClients.BlankClientIdIsInvalid` | typescript-authenticated-mcp-server-scaffold/src/config.ts:72-75 | An entry whose client id is blank fails as an invalid entry that names the whole entry. |
| `OAuthClients.OnlyCommasGiveNoRedirectUris` | typescript-authenticated-mcp-server-scaffold/src/config.ts:76-82 | An entry with a client id and a URI list of only commas and white space fails with the missing-URI error, which names the trimmed client id. |
| `OAuthClients.EntryFields` | typescript-authenticated-mcp-server-scaffold/src/config.ts:72-83 | Any entry with a client id and at least one URI parses to the trimmed id and the trimmed, non-empty comma fields of the list, in order. White space around the separators and empty comma fields do not matter. |
| `OAuthClients.Apply` | typescript-authenticated-mcp-server-scaffold/src/config.ts:71-84 | The fold over the entries keeps the registry consistent and well formed. |
| `OAuthClients.Fold` | typescript-authenticated-mcp-server-scaffold/src/config.ts:71-84 | Setting the parsed clients in turn, or throwing the first error, keeps the registry consistent and, when every client is well formed, well formed. |
| `OAuthClients.AllowedClients` | typescript-authenticated-mcp-server-scaffold/src/config.ts:59-87 | What `parseAllowedClients` returns or throws. It has no contract of its own: `NoEntriesGiveEmptyRegistry`, `SuccessIsWellFormed`, `ApplySucceedsIffAllParse` and `AllowedClientsOfFormat` state its meaning. |
| `OAuthClients.ParseAllowedClients` | typescript-authenticated-mcp-server-scaffold/src/config.ts:59-87 | The loop that sets each entry into a map returns what the fold specification `AllowedClients` returns, including its first error. |
| `OAuthClients.NoEntriesGiveEmptyRegistry` | typescript-authenticated-mcp-server-scaffold/src/config.ts:60-62 | An unset value, or one without non-blank entries, gives an empty registry and not an error. |
| `OAuthClients.SuccessIsWellFormed` | typescript-authenticated-mcp-server-scaffold/src/config.ts:59-87 | Every parsed registry lists each key once, in an order matching its keys. Every id and URI is non-empty, trimmed and delimiter-free, and every client has at least one URI. |
| `OAuthClients.FirstBadEntryDecides` | typescript-authenticated-mcp-server-scaffold/src/config.ts:71-82 | The first entry that does not parse decides the outcome, which is its error. |
| `OAuthClients.ApplySucceedsIffAllParse` | typescript-authenticated-mcp-server-scaffold/src/config.ts:71-84 | Parsing succeeds exactly when every entry parses. |
| `OAuthClients.ApplyKeys` | typescript-authenticated-mcp-server-scaffold/src/config.ts:83 | The resulting keys are the earlier keys plus the id of every entry. |
| `OAuthClients.ApplyKeepsUntouched` | typescript-authenticated-mcp-server-scaffold/src/config.ts:83 | A client that no entry names keeps its URIs. |
| `OAuthClients.LastWriteWins` | typescript-authenticated-mcp-server-scaffold/src/config.ts:83 | A repeated client id keeps the URIs of its last entry. |
| `OAuthClients.AllowedClientsOfFormat` | typescript-authenticated-mcp-server-scaffold/src/config.ts:59-87 | An allow-list written from well-formed clients parses to the registry built by setting those clients in turn. |
| `OAuthClients.AllowedClientsOfDistinct` | typescript-authenticated-mcp-server-scaffold/src/config.ts:59-87 | With distinct ids, that registry lists the ids in written order, each with its own URIs. |
| `OAuthClients.RegisterOrder` | typescript-authenticated-mcp-server-scaffold/src/config.ts:83 | Setting new, distinct ids appends them in order. |
| `OAuthClients.RegisterValues` | typescript-authenticated-mcp-server-scaffold/src/config.ts:83 | Setting clients with distinct ids records each client's URIs under its id. |
| `Config.ServiceDocumentationUrl` | typescript-authenticated-mcp-server-scaffold/src/config.ts:93 | An unset or empty value gives no URL. A non-empty value fails exactly when the URL parser rejects it, and the failure names that value. A non-empty value the parser accepts is kept as the URL. |
| `Config.LoadConfig` | typescript-authenticated-mcp-server-scaffold/src/config.ts:21-106 | The statement-by-statement pipeline returns what the step-by-step specification `Resolve` returns. |
| `Config.Resolve` | typescript-authenticated-mcp-server-scaffold/src/config.ts:21-106 | The pipeline as one function. It has no contract of its own: `ValidEnvironmentResolves` states when it succeeds, the stop lemmas (`SchemaViolationStopsPipeline`, `PortNotIntegerStopsPipeline`, `AllowListErrorStopsPipeline`, `DocumentationUrlErrorStopsPipeline`, `LocalhostUrlRejectedStopsPipeline`) state how each step's failure ends it, `RejectedUrlIsDocumentationOrLocalhost` traces a rejected URL back to its cause, `ResolvedShape` and `ResolvedConfigGuarantees` state what it produces, and `LoadConfig` is proved equal to it. |
| `Config.SchemaViolationStopsPipeline` | typescript-authenticated-mcp-server-scaffold/src/config.ts:21-26 | A schema violation ends the pipeline with the full list of issues, and each offending field is in it. |
| `Config.PortNotIntegerStopsPipeline` | typescript-authenticated-mcp-server-scaffold/src/config.ts:32-36 | Once the schema passes, a `PORT` that is NaN ends the pipeline with `PortNotInteger`. |
| `Config.AllowListErrorStopsPipeline` | typescript-authenticated-mcp-server-scaffold/src/config.ts:59-89 | Once the schema and the port pass, an allow-list that does not parse ends the pipeline with `AllowList` of its error, before the documentation URL is looked at. |
| `Config.DocumentationUrlErrorStopsPipeline` | typescript-authenticated-mcp-server-scaffold/src/config.ts:93 | Once the schema, the port and the allow-list pass, a non-empty `SERVICE_DOCUMENTATION_URL` that the URL parser rejects ends the pipeline with `UrlRejected` of that text. |
| `Config.LocalhostUrlRejectedStopsPipeline` | typescript-authenticated-mcp-server-scaffold/src/config.ts:91-98 | Once every earlier step passes and `RESOURCE_SERVER_URL` is unset, a rejected `http://localhost:<port>` ends the pipeline with `UrlRejected` of that text. |
| `Config.ValidEnvironmentResolves` | typescript-authenticated-mcp-server-scaffold/src/config.ts:21-106 | An environment that passes the schema, the port step, the allow-list parser, the documentation URL and the resource-server URL check always yields a configuration. |
| `Config.RejectedUrlIsDocumentationOrLocalhost` | typescript-authenticated-mcp-server-scaffold/src/config.ts:91-98 | A URL rejected at assembly is either `SERVICE_DOCUMENTATION_URL` or the localhost default, for the parsed or the default port. A given `RESOURCE_SERVER_URL` is never rejected there. |
| `Config.ResolvedConfigGuarantees` | typescript-authenticated-mcp-server-scaffold/src/config.ts:91-106 | Every produced configuration has the properties below. |
| `Config.ResolvedShape` | typescript-authenticated-mcp-server-scaffold/src/config.ts:91-106 | A produced configuration takes each field from its environment variable through its own step: the port from the port step, the issuer normalised, the URL or its localhost default, the trend directory, the audiences, the parsed allow-list and the documentation URL. Scopes are always empty. |
| `ConfigExamples.PortWithTrailingText` | typescript-authenticated-mcp-server-scaffold/src/config.ts:32 | `PORT="3000abc"` is port 3000. |
| `ConfigExamples.PortWithoutDigits` | typescript-authenticated-mcp-server-scaffold/src/config.ts:32-36 | `PORT="abc"` stops the pipeline with `PortNotInteger`. |
| `ConfigExamples.AudienceExample` | typescript-authenticated-mcp-server-scaffold/src/config.ts:50-53 | `JWT_AUDIENCES=" a , b ,"` gives the audiences `a` then `b`. |
| `ConfigExamples.DefaultAudienceExample` | typescript-authenticated-mcp-server-scaffold/src/config.ts:55-57 | With neither variable set, the audience is `http://localhost:8788`. |
| `ConfigExamples.TwoClientExample` | typescript-authenticated-mcp-server-scaffold/src/config.ts:59-87 | The two-client allow-list lists `app1` then `app2`, each with its own URIs. |
| `ConfigExamples.MissingUriListEntry` | typescript-authenticated-mcp-server-scaffold/src/config.ts:72-75 | `app1` followed by a bar and nothing else is reported whole as an invalid entry. |

`Config.ResolvedConfigGuarantees` guarantees that:

- the issuer was a URL and is normalised with a final `/`;
- the port is the parsed `PORT`, or 8788;
- the resource server URL is the given URL, or the localhost default, and is accepted by the parser;
- the audiences and the allow-list are the specified ones, and the audiences are non-empty;
- `requiredScopes` is empty;
- the trend directory is the resolved `TREND_DATA_DIR`, or the default;
- the documentation URL is present exactly when its variable is non-empty;
- the API key and vector store id are passed through.

## Left out

- Loading `.env` files with `dotenv`, and reading `process.env`: the environment is an explicit `map<string, string>` parameter.
- URL syntax and canonicalisation (WHATWG URL parsing): the parser's accept/reject decision is the `isUrl` parameter, and a `Url` keeps the text it was built from (its `input`) rather than the normalised `href`.
- `path.resolve`, `dirname` and `fileURLToPath`: they are the `resolve` parameter and the `cwd`/`anchorDir` strings, since their results depend on the host file system layout.
- Error message texts, including the JSON of zod's `flatten().fieldErrors`: errors are structured values carrying the same information (offending fields, entry or client id, rejected URL).
- Zod's handling of non-string values: `process.env` holds only strings, so the schema's `z.string()` checks always pass and only presence and URL-ness are modelled.
- `JsNumber.ParseInt`: the result is an unbounded integer; IEEE double rounding of digit runs above 2^53, and exponent notation when a huge port is printed in `http://localhost:${port}`, are not modelled.
- `JsString.Trim`: strings are sequences of Unicode scalar values, not UTF-16 code units. A character outside the Basic Multilingual Plane is one `char` here and two code units in JavaScript, and a lone surrogate cannot be represented at all. The lengths can therefore differ, but the code only tests strings for emptiness, and no non-BMP character is white space. White space outside the ECMAScript WhiteSpace and LineTerminator sets is not distinguished further.
- Mutation of the exported `config` object and its `Map` after start-up: the record is produced once and treated as read-only.
- The Python RSS data pipeline scripts in the same repository are not part of this model.
