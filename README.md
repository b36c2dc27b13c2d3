# platform_common database core, in Dafny

This project models two parts of the `platform_common` Go library and proves
properties of the model.

- **The SQL prettifier** `prettier.Pretty` (pkg/db/prettier/query_prettier.go).
  It substitutes a rendering of each positional argument for its numbered
  placeholder. It then deletes tabs, turns newlines into spaces and trims
  the ends. Strings and byte slices are rendered with `%q`; every other
  value with `%v`.
- **The PostgreSQL wrapper** (pkg/db/pg/pg.go). Each operation sends its
  statement to the transaction stored in the request context, or to the
  pool when there is none. It wraps the operation in a tracing span that is
  marked and tagged on failure and always finished. It logs the query as a
  prettified line.

Files:

- `wrappers.dfy`: `Option`.
- `go_strings.dfy`: the parts of Go's `strings` package the prettifier uses.
  These are `strings.Replace(s, old, new, -1)` and `strings.ReplaceAll`,
  with `Split` and `Join` as an independent reference definition, and
  `strings.TrimSpace` with the full `unicode.IsSpace` set.
- `go_strconv.dfy`: the formatting it uses. `strconv.Itoa` comes with its
  inverse `Atoi`; `%q` (`strconv.Quote`) comes with `Unquote`, which reads back
  what `Quote` writes.
- `prettier.dfy`: `Pretty` as a method whose loop is proved against the
  function `PrettyQuery`, plus the lemmas about `PrettyQuery`.
- `pg.dfy`: the context chain and its lookups as datatypes and functions.
  `Span` and `DB` are classes whose methods update fields in place.

The pool, the transactions and `pgxscan` are foreign code. The model
represents them by two function fields of `DB`, fixed when the handle is
made:

- `driver` answers each call, given the sequence of all calls so far;
- `scanner` answers each scan.

`DB` records every call, scan, `logQuery` call and span in order. The
method contracts are stated over those records.

Three behaviours of the code are modelled as written, each proved by a lemma,
although they make the output differ from one with every placeholder filled
in:

- The `$1` step (query_prettier.go:29) also rewrites the start of `$10` ...
  `$19`, so with ten or more arguments those placeholders are rewritten by the
  `$1` step before their own argument is substituted
  (`DollarTenIsRewrittenByFirstArgument`).
- A rendered value can itself be rewritten by a later step.
- In the question-mark style the tokens are `?1`, `?2`, ..., so a bare `?` is
  never replaced.

`BeginTx` (pg.go:145-149) opens a span but logs nothing, unlike the other
operations.

## Model

| member | source | states |
|---|---|---|
| Prettier.BytesToString | pkg/db/prettier/query_prettier.go:24 | `string(v)` of a byte slice has one character per byte, with that byte's code |
| Prettier.Render | pkg/db/prettier/query_prettier.go:20-27 | the type switch: `%q` of a string, `%q` of a byte slice's text, `Itoa` of an integer, the `%v` text otherwise (definition; `RenderReadsBack` proves what it means) |
| Prettier.RenderReadsBack | pkg/db/prettier/query_prettier.go:20-27 | every rendering reads back as its value: `Unquote` gives the string or the byte slice's text, `Atoi` the integer; other values are their `%v` text |
| Prettier.Token | pkg/db/prettier/query_prettier.go:29 | the placeholder followed by `Itoa(k)` (definition; `TokenPrefix` and `TokenReadsBack` state what it means) |
| Prettier.TokenPrefix | pkg/db/prettier/query_prettier.go:29 | a token is its placeholder followed by at least one more character |
| Prettier.TokenReadsBack | pkg/db/prettier/query_prettier.go:29 | what follows the placeholder in the token of argument `k` reads back as `k` |
| Prettier.Substituted | pkg/db/prettier/query_prettier.go:18-30 | the running query after the first `k` replacements of line 29, each applied to the result of the one before (definition; `SubstitutionStep`, `SubstitutedPrefix` and `Pretty` state its properties) |
| Prettier.Clean | pkg/db/prettier/query_prettier.go:32-35 | tabs deleted, newlines made spaces, the ends trimmed (definition; `CleanShape` and `CleanIdempotent` state its properties) |
| Prettier.PrettyQuery | pkg/db/prettier/query_prettier.go:17-36 | what `Pretty` returns: all substitutions, then the clean-up (definition; `PrettyShape`, `PrettyIdempotent` and `ExtraArgumentIgnored` state its properties) |
| Prettier.Pretty | pkg/db/prettier/query_prettier.go:17-36 | the loop leaves the query after the first `i` substitutions in turn; the result is `PrettyQuery`, one line with no whitespace at either end |
| Prettier.CleanShape | pkg/db/prettier/query_prettier.go:32-35 | after the clean-up there is no tab, no newline and no space character at either end |
| Prettier.PrettyShape | pkg/db/prettier/query_prettier.go:17-36 | for every query, placeholder and arguments, the output holds no tab or newline and is trimmed |
| Prettier.CleanOfSingleLine | pkg/db/prettier/query_prettier.go:32-35 | text that is already one trimmed line is not changed by the clean-up |
| Prettier.CleanIdempotent | pkg/db/prettier/query_prettier.go:32-35 | cleaning twice is cleaning once |
| Prettier.PrettyIdempotent | pkg/db/prettier/query_prettier.go:17-36 | prettifying the output again with no arguments gives the output back |
| Prettier.PrettyWithoutArguments | pkg/db/prettier/query_prettier.go:18-35 | with no arguments the result is `TrimSpace(ReplaceAll(ReplaceAll(q, "\t", ""), "\n", " "))` |
| Prettier.StringRendersQuoted | pkg/db/prettier/query_prettier.go:21-22 | a string renders between double quotes, and unquoting the rendering gives the string back |
| Prettier.BytesRenderAsString | pkg/db/prettier/query_prettier.go:23-24 | a byte slice renders exactly as the string with the same character codes |
| Prettier.TokenHead | pkg/db/prettier/query_prettier.go:29 | a token is never empty and begins with the placeholder's first character |
| Prettier.SubstitutionStep | pkg/db/prettier/query_prettier.go:29 | step `i` cuts the running query at every non-overlapping occurrence of token `i+1`; the pieces hold no occurrence of the token; the cuts are filled with the argument's rendering |
| Prettier.StepWithoutTokenIsIdentity | pkg/db/prettier/query_prettier.go:29 | a step whose token does not occur leaves the running query unchanged |
| Prettier.SubstitutedFixed | pkg/db/prettier/query_prettier.go:18-30 | a query that each of the first `k` steps leaves alone survives all of them |
| Prettier.SubstitutedWithoutPlaceholder | pkg/db/prettier/query_prettier.go:18-30 | a query without the placeholder's first character survives every substitution step |
| Prettier.PrettyWithoutPlaceholder | pkg/db/prettier/query_prettier.go:17-36 | such a query is only cleaned up, whatever the arguments |
| Prettier.StepCongruence | pkg/db/prettier/query_prettier.go:29 | step `k` depends only on the query before it and on argument `k` |
| Prettier.SubstitutedPrefix | pkg/db/prettier/query_prettier.go:18-30 | the first `k` steps depend only on the first `k` arguments |
| Prettier.ExtraArgumentIgnored | pkg/db/prettier/query_prettier.go:18-30 | an extra argument whose token does not occur in the substituted query does not change the output |
| Prettier.TokenIsPrefixOfLongerToken | pkg/db/prettier/query_prettier.go:29 | the token of argument `a` is a prefix of the tokens of arguments `10a` to `10a+9` |
| Prettier.DollarTenIsRewrittenByFirstArgument | pkg/db/prettier/query_prettier.go:29 | `x = $10` with the single argument 7 becomes `x = 70` |
| Prettier.InsertedValueIsRewritten | pkg/db/prettier/query_prettier.go:18-30 | `$1` with arguments `"$2"` (as `%v` text) and 5 becomes `5`: a later step rewrites an inserted value |
| Prettier.BareQuestionMarkIsKept | pkg/db/prettier/query_prettier.go:29 | in the question-mark style `id = ?` with one argument is left as it is |
| Prettier.BareQuestionMarkStep | pkg/db/prettier/query_prettier.go:29 | the `?1` step does not touch a bare trailing `?` |
| Prettier.MultiLineQueryIsJoined | pkg/db/prettier/query_prettier.go:32-35 | `"SELECT 1\n\tFROM dual"` becomes `SELECT 1 FROM dual` |
| Prettier.WorkedExampleFirstStep | pkg/db/prettier/query_prettier.go:29 | the `$1` step of the worked example puts `42` in place of `$1` only |
| Prettier.WorkedExampleSecondStep | pkg/db/prettier/query_prettier.go:29 | the `$2` step of the worked example puts `"Alice"` in place of `$2` |
| Prettier.WorkedExampleClean | pkg/db/prettier/query_prettier.go:32-35 | the clean-up leaves the substituted worked example as it is |
| Prettier.WorkedExampleArguments | pkg/db/prettier/query_prettier.go:20-27 | 42 renders as `42` and the string Alice as `"Alice"` |
| Prettier.WorkedExample | pkg/db/prettier/query_prettier.go:17-36 | `SELECT * FROM users WHERE id = $1 AND name = $2` with 42 and "Alice" becomes `SELECT * FROM users WHERE id = 42 AND name = "Alice"` |
| GoStrings.ReplaceAll | pkg/db/prettier/query_prettier.go:29 | `strings.Replace(s, old, new, -1)`: left-to-right, non-overlapping replacement of every occurrence (definition; `ReplaceAllIsSplitJoin` ties it to its Split/Join reference) |
| GoStrings.ReplaceAllSelf | pkg/db/prettier/query_prettier.go:29 | replacing a pattern by itself changes nothing |
| GoStrings.ReplaceAllIsSplitJoin | pkg/db/prettier/query_prettier.go:29 | replacement equals splitting at the pattern and joining with the replacement |
| GoStrings.SplitJoinRoundTrip | pkg/db/prettier/query_prettier.go:29 | joining the pieces of a split with the separator gives the string back |
| GoStrings.SplitPiecesFree | pkg/db/prettier/query_prettier.go:29 | no piece of a split contains the separator |
| GoStrings.ReplaceAllBySplit | pkg/db/prettier/query_prettier.go:29 | replacement cuts the string into pattern-free pieces that join back to it, and fills the cuts with the replacement |
| GoStrings.ReplaceAllAbsent | pkg/db/prettier/query_prettier.go:32-33 | where the pattern does not occur, replacement changes nothing |
| GoStrings.ReplaceAllSkip | pkg/db/prettier/query_prettier.go:29 | text without the pattern's first character passes through unchanged, and the rest is replaced on its own |
| GoStrings.ReplaceAllUntouched | pkg/db/prettier/query_prettier.go:29 | text without the pattern's first character is left as it is |
| GoStrings.ReplaceAllOnce | pkg/db/prettier/query_prettier.go:29 | a single occurrence with no first character of the pattern around it is replaced |
| GoStrings.ReplaceAllKeepsAbsent | pkg/db/prettier/query_prettier.go:32-33 | replacement introduces no character that is in neither the string nor the replacement |
| GoStrings.ReplaceCharRemoves | pkg/db/prettier/query_prettier.go:32-33 | replacing a character by text without it removes every occurrence |
| GoStrings.TrimLeft | pkg/db/prettier/query_prettier.go:35 | the result is a suffix, what was dropped is all space, and the result does not start with a space |
| GoStrings.TrimRight | pkg/db/prettier/query_prettier.go:35 | the result is a prefix, what was dropped is all space, and the result does not end with a space |
| GoStrings.TrimSpace | pkg/db/prettier/query_prettier.go:35 | the result neither begins nor ends with a space character and is no longer than the input |
| GoStrings.TrimSpaceSurrounded | pkg/db/prettier/query_prettier.go:35 | the input is the result with runs of space characters on either side |
| GoStrings.TrimSpaceOfTrimmed | pkg/db/prettier/query_prettier.go:35 | trimming trimmed text changes nothing |
| GoStrings.TrimSpaceKeepsAbsent | pkg/db/prettier/query_prettier.go:35 | trimming introduces no new character |
| GoStrconv.Itoa | pkg/db/prettier/query_prettier.go:29 | `strconv.Itoa`: a minus sign for negative numbers, then the decimal digits (definition; `ItoaRoundTrip` proves `Atoi` reads it back) |
| GoStrconv.NatToDecimal | pkg/db/prettier/query_prettier.go:29 | the decimal text is non-empty digits with no leading zero |
| GoStrconv.DecimalRoundTrip | pkg/db/prettier/query_prettier.go:29 | the value of the decimal text of `n` is `n` |
| GoStrconv.ItoaRoundTrip | pkg/db/prettier/query_prettier.go:29 | `Atoi(Itoa(i)) == i` for every integer, negative ones included |
| GoStrconv.DecimalAppendDigit | pkg/db/prettier/query_prettier.go:29 | the decimal text of `10a + d` is that of `a` followed by digit `d` |
| GoStrconv.Hex | pkg/db/prettier/query_prettier.go:22 | a `\x`/`\u` escape body has exactly `w` lower-case hex digits |
| GoStrconv.HexRoundTrip | pkg/db/prettier/query_prettier.go:22 | parsing the `w` hex digits of `n < 16^w` gives `n` |
| GoStrconv.EscapeRune | pkg/db/prettier/query_prettier.go:22 | `%q` writes every character as non-empty printable text |
| GoStrconv.EscapeBody | pkg/db/prettier/query_prettier.go:22 | escaped text is all printable characters |
| GoStrconv.Quote | pkg/db/prettier/query_prettier.go:22 | `%q` text begins and ends with `"` and is all printable, so it holds no tab or newline |
| GoStrconv.EscapeBodyPlain | pkg/db/prettier/query_prettier.go:22 | text of printable characters other than `"` and `\` is not changed by escaping |
| GoStrconv.QuotePlain | pkg/db/prettier/query_prettier.go:22 | quoting such text only adds the two double quotes |
| GoStrconv.UnescapeRune | pkg/db/prettier/query_prettier.go:22 | reading an escaped character back gives that character, whatever follows |
| GoStrconv.UnescapeBodyRoundTrip | pkg/db/prettier/query_prettier.go:22 | reading back the escaped text gives the original string |
| GoStrconv.QuoteRoundTrip | pkg/db/prettier/query_prettier.go:22 | `Unquote(Quote(s)) == s` for every string |
| Pg.TxOf | pkg/db/pg/pg.go:92 | a transaction is found exactly when the value under `TxKey` is a transaction, and it is that transaction |
| Pg.MakeContextTx | pkg/db/pg/pg.go:167-169 | the new context wraps the parent, yields `tx` under `TxKey`, and reads every other key as the parent does |
| Pg.Lookup | pkg/db/pg/pg.go:92 | `ctx.Value(k)` finds nothing exactly when no overlay of the chain has the key |
| Pg.NoTxWithoutTxKey | pkg/db/pg/pg.go:92 | a context that never had `TxKey` set yields no transaction, and the lookup does not fail |
| Pg.NonTxValueHidesTx | pkg/db/pg/pg.go:92 | a value under `TxKey` that is not a transaction yields no transaction, even over an outer one |
| Pg.Route | pkg/db/pg/pg.go:95-99 | a call goes to a transaction exactly when the context has one, and then to that one; otherwise to the pool |
| Pg.NoTxKeyRoutesToPool | pkg/db/pg/pg.go:118-122 | a context that never had `TxKey` set sends calls to the pool |
| Pg.InnerTxWins | pkg/db/pg/pg.go:167-169 | a transaction attached inside another one is the one used |
| Pg.SpanContext | pkg/db/pg/pg.go:44 | the span's context has the new span as its active span |
| Pg.SpanContextKeepsRoute | pkg/db/pg/pg.go:88-92 | starting a span keeps the context's transaction and so its routing |
| Pg.SpanTags | pkg/db/pg/pg.go:101-105 | a query span is tagged with the SQL text, and has an `err` tag holding the error text exactly when there was an error |
| Pg.Printed | pkg/db/pg/pg.go:171-178 | the three things `logQuery` prints: the context, `sql: ` and the name, `query: ` and the prettified query with the dollar style (definition; `LogLineIsOneLine` and `QuestionMarkQueryIsLoggedUnsubstituted` state its properties) |
| Pg.LogLineIsOneLine | pkg/db/pg/pg.go:171-178 | the `query:` part of every log line is a single line |
| Pg.QuestionMarkQueryIsLoggedUnsubstituted | pkg/db/pg/pg.go:172 | the log always uses the dollar style, so a query without `$` is logged only cleaned up |
| Pg.Span.constructor | pkg/db/pg/pg.go:44 | a new span has its name and its initial tags, is not marked and is not finished |
| Pg.Span.Fail | pkg/db/pg/pg.go:102-103 | it marks the span errored and sets its `err` tag; nothing else changes |
| Pg.Span.Finish | pkg/db/pg/pg.go:45 | it counts one more finish; nothing else changes |
| Pg.DB.constructor | pkg/db/pg/pg.go:37-41 | a new handle over the given pool has done nothing yet |
| Pg.DB.StartSpan | pkg/db/pg/pg.go:44 | it appends one fresh, unmarked, unfinished span and returns the context it is active in; nothing else changes |
| Pg.DB.LogQuery | pkg/db/pg/pg.go:171-178 | it appends one `logQuery` call to the log; nothing else changes |
| Pg.DB.Send | pkg/db/pg/pg.go:96-98 | it appends exactly one call to the trace and returns the driver's reply to it |
| Pg.DB.ScanRows | pkg/db/pg/pg.go:55 | it appends the scan and returns the scanner's error |
| Pg.DB.ExecContext | pkg/db/pg/pg.go:87-108 | exactly one call reaches the target the context routes to; the tag and error are the driver's unchanged; the new span is finished once, with its `err` tag and mark exactly on error; the query is logged once in the span's context |
| Pg.DB.QueryContext | pkg/db/pg/pg.go:110-131 | the same as `ExecContext`, for a row query |
| Pg.DB.QueryRowContext | pkg/db/pg/pg.go:133-143 | one call reaches the routed target and its row comes back; the span is finished once and never marked |
| Pg.DB.BeginTx | pkg/db/pg/pg.go:145-149 | the call always goes to the pool, even inside a transaction; the span "BeginTx" is finished once and neither tagged nor marked; nothing is logged |
| Pg.DB.ScanContext | pkg/db/pg/pg.go:43-85 | one routed query; a failed query returns its error unchanged and is not scanned; otherwise the scan's error is returned unchanged; both spans are finished once and marked exactly on their own errors; the query is logged twice, once in each span's context |

## Left out

- Prettier.BytesToString: takes each byte as the character with that code. Go reads a byte slice as UTF-8, so the model is exact only for ASCII bytes. Multi-byte sequences and invalid UTF-8 are not modelled.
- Prettier.Arg: Go strings are byte strings; the model's `string` is a sequence of Unicode characters, so a query text or a string argument holding invalid UTF-8, which `%q` (query_prettier.go:22) writes with `\x` escapes, cannot be represented.
- GoStrconv.IsPrint: agrees with Go's `strconv.IsPrint` on ASCII, on Latin-1 and on every space character. It takes every other character as printable.
- GoStrconv.EscapeRune: follows from IsPrint, so it never writes the `\U` escape, and it writes no escape for unassigned or other non-printable characters outside Latin-1.
- Prettier.Arg: values other than strings, byte slices and integers are carried as the text `%v` prints for them (`Other`). The model does not define `%v` for floats, structs, pointers or nil.
- GoStrconv.Atoi: reads only text of the form `Itoa` writes, an optional minus sign and digits. It is the partner of the round trip, not a model of `strconv.Atoi`.
- GoStrconv.Unquote: reads only what `Quote` writes. It does not reject a raw newline inside the quotes, does not accept octal or `\U` escapes, and reads `\xHH` as the character of that code rather than a raw byte. It is the partner of the round trip, not a model of `strconv.Unquote`.
- Pg.DB.driver: the pool, the transactions, command tags, row cursors and rows are foreign code and network I/O. `driver` is a function of the call trace that returns a handle and an error; the results' contents are not modelled.
- Pg.DB.ScanRows: `pgxscan.ScanOne` and `pgxscan.ScanAll` and the destination value are foreign code. The `scanner` function gives only the error. The not-found error of `ScanOne` on zero rows, and an empty destination for `ScanAll`, are the scanner's business.
- Pg.DB.ScanContext: models `ScanOneContext` and `ScanAllContext` as one method. The two functions have the same body apart from the pgxscan function; the `kind` parameter names it.
- Pg.DB.LogQuery: `log.Println` and the printing of the context value are I/O. The log records each call of `logQuery`; `Printed` gives the strings it composes.
- Pg.Span: opentracing's span storage and parent/child references are not modelled. The span is a record of its name, its tags, its error mark and the number of times it was finished. `ext.Error.Set(span, true)` is the `errored` field, not an `error` tag.
- Pg.Span.Fail: the source's two calls, `ext.Error.Set` and `SetTag("err", ...)`, are one method here.
- Pg.DB.QueryRowContext: the error of a row query surfaces only when the row is scanned by the caller, so the model returns no error.
- Pg.Tx: a nil transaction is not modelled; storing a nil with `MakeContextTx` stores a nil interface, which the assertion at pg.go:92 rejects, so the call goes to the pool and any outer transaction is hidden (as `NonTxValueHidesTx` shows for any non-transaction value). A typed nil pointer inside a non-nil interface, which passes the assertion, is not represented.
- `Ping` and `Close` (pkg/db/pg/pg.go:151-157) only delegate to the pool; there is nothing to state about them.
- Connection setup in pkg/db/pg/client.go and the consumer interface in pkg/kafka/kafka.go are not part of this model.
- The `db.Query` type and the `db.DB` interface are not part of this model; `Query` carries the two fields the wrapper reads.
- Concurrency on the pool or on a shared transaction, and cancellation through the context, are left to the driver.
- Frames: every span made before a call stays as it was, because the `DB` methods may modify only the handle itself. This is not stated as a separate invariant over all spans.
