/**
  The PostgreSQL wrapper of pkg/db/pg: a database handle that sends each
  operation either to the connection pool or to the transaction carried by
  the request context, wraps every operation in a tracing span, and logs
  every query as one prettified line.

  The pool, the transactions and the row scanner are foreign code; they are
  modelled by two functions fixed when the handle is made: `driver`, which
  answers each call given every call made so far, and `scanner`, which
  answers each scan of a row set.
 */
module Pg {
  import opened Wrappers
  import Prettier

  /** A transaction handle, known only by its identity. */
  datatype Tx = Tx(id: nat)

  /** A context key; Go compares keys by dynamic type and by value. */
  datatype Key = Key(typeName: string, name: string)

  /** The key the transaction is stored under: the value "tx" of the package's own `key` type. */
  const TxKey: Key := Key("pg.key", "tx")
  /** The key the tracing library keeps the active span under. */
  const SpanKey: Key := Key("opentracing.contextKey", "")

  /** A value stored in a context. */
  datatype Value = TxValue(tx: Tx) | SpanValue(span: nat) | OtherValue(repr: string)

  /** A request context: an immutable chain of key/value overlays over the background context. */
  datatype Context = Background | WithValue(parent: Context, key: Key, val: Value)

  /**
    `ctx.Value(k)`: the value of the innermost overlay with key `k`, if any.
    It finds nothing exactly when no overlay of the chain has the key.
   */
  function Lookup(ctx: Context, k: Key): (r: Option<Value>)
    ensures r == None <==> NeverSet(ctx, k)
  {
    match ctx
    case Background => None
    case WithValue(parent, key, val) => if key == k then Some(val) else Lookup(parent, k)
  }

  /** No overlay of the chain has key `k`. */
  predicate NeverSet(ctx: Context, k: Key) {
    match ctx
    case Background => true
    case WithValue(parent, key, _) => key != k && NeverSet(parent, k)
  }

  /**
    `tx, ok := ctx.Value(TxKey).(pgx.Tx)`: the transaction stored under
    `TxKey`, present only when the value found there is a transaction.
   */
  function TxOf(ctx: Context): (r: Option<Tx>)
    ensures r.Some? ==> Lookup(ctx, TxKey) == Some(TxValue(r.value))
    ensures Lookup(ctx, TxKey).Some? && Lookup(ctx, TxKey).value.TxValue? ==> r == Some(Lookup(ctx, TxKey).value.tx)
  {
    match Lookup(ctx, TxKey)
    case Some(TxValue(tx)) => Some(tx)
    case _ => None
  }

  /** `MakeContextTx`: a new context holding `tx` under `TxKey`; every other key reads as in `ctx`. */
  function MakeContextTx(ctx: Context, tx: Tx): (r: Context)
    ensures r.WithValue? && r.parent == ctx
    ensures TxOf(r) == Some(tx)
    ensures forall k :: k != TxKey ==> Lookup(r, k) == Lookup(ctx, k)
  {
    WithValue(ctx, TxKey, TxValue(tx))
  }

  /** A context that never had `TxKey` set carries no transaction. */
  lemma NoTxWithoutTxKey(ctx: Context)
    requires NeverSet(ctx, TxKey)
    ensures TxOf(ctx) == None
  {
  }

  /** A value under `TxKey` that is not a transaction hides any transaction further out. */
  lemma NonTxValueHidesTx(ctx: Context, v: Value)
    requires !v.TxValue?
    ensures TxOf(WithValue(ctx, TxKey, v)) == None
  {
  }

  /** Where a call goes: to the pool, or to a transaction. */
  datatype Target = Pool | InTx(tx: Tx)

  /** The routing rule of the query operations: the context's transaction when it has one, the pool otherwise. */
  function Route(ctx: Context): (t: Target)
    ensures t.InTx? <==> TxOf(ctx).Some?
    ensures t.InTx? ==> TxOf(ctx) == Some(t.tx)
  {
    match TxOf(ctx)
    case Some(tx) => InTx(tx)
    case None => Pool
  }

  /** The context a span is started in: the parent with the new span as its active span. */
  function SpanContext(ctx: Context, span: nat): (r: Context)
    ensures Lookup(r, SpanKey) == Some(SpanValue(span))
  {
    WithValue(ctx, SpanKey, SpanValue(span))
  }

  /** Starting a span keeps the transaction, and so the routing, of the context. */
  lemma SpanContextKeepsRoute(ctx: Context, span: nat)
    ensures TxOf(SpanContext(ctx, span)) == TxOf(ctx)
    ensures Route(SpanContext(ctx, span)) == Route(ctx)
  {
    assert SpanKey != TxKey;
  }

  /** A called-for query: its name, used for the span and the log, and its SQL text. */
  datatype Query = Query(name: string, raw: string)

  /** An error; `text` is what `err.Error()` returns. */
  datatype Error = Error(text: string)

  /** The options of a new transaction. */
  datatype TxOptions = TxOptions(isoLevel: string, accessMode: string, deferrableMode: string)

  /** The operation a call asks of the pool or the transaction. */
  datatype Op =
    | ExecOp(sql: string, args: seq<Prettier.Arg>)
    | QueryOp(sql: string, args: seq<Prettier.Arg>)
    | QueryRowOp(sql: string, args: seq<Prettier.Arg>)
    | BeginOp(options: TxOptions)

  datatype Call = Call(target: Target, op: Op)

  /**
    The answer to a call: a handle to what it produced (command tag, row
    set, row or transaction) and the error, if any.
   */
  datatype Reply = Reply(handle: nat, err: Option<Error>)

  /** `pgxscan.ScanOne` or `pgxscan.ScanAll`. */
  datatype ScanKind = One | All

  /** A scan of a row set. */
  datatype Scan = Scan(kind: ScanKind, rows: nat)

  /** A call of `logQuery`: the context, the query and the arguments it was given. */
  datatype LogCall = LogCall(ctx: Context, q: Query, args: seq<Prettier.Arg>)

  /** The three things `logQuery` prints: the context, `sql: <name>` and `query: <pretty query>`. */
  datatype LogLine = LogLine(ctx: Context, sql: string, query: string)

  /** What a call of `logQuery` prints; placeholders are always taken in the dollar style. */
  function Printed(c: LogCall): LogLine {
    LogLine(c.ctx, "sql: " + c.q.name, "query: " + Prettier.PrettyQuery(c.q.raw, Prettier.PlaceholderDollar, c.args))
  }

  /** The query part of a log line is always a single line. */
  lemma LogLineIsOneLine(c: LogCall)
    ensures Prettier.SingleLine(Printed(c).query)
  {
    Prettier.PrettyShape(c.q.raw, Prettier.PlaceholderDollar, c.args);
    QueryLabelIsOneLine("query: ");
    Prettier.SingleLineAppend("query: ", Prettier.PrettyQuery(c.q.raw, Prettier.PlaceholderDollar, c.args));
  }

  /** The label `query: ` holds no tab or newline (a parameter, so the literal is checked on its own). */
  lemma QueryLabelIsOneLine(prefix: string)
    requires prefix == "query: "
    ensures '\t' !in prefix && '\n' !in prefix
  {
  }

  /**
    The log always takes placeholders in the dollar style: a query written
    with `?1`, `?2`, ... is logged only cleaned up, whatever its arguments.
   */
  lemma QuestionMarkQueryIsLoggedUnsubstituted(c: LogCall)
    requires '$' !in c.q.raw
    ensures Printed(c).query == "query: " + Prettier.Clean(c.q.raw)
  {
    Prettier.PrettyWithoutPlaceholder(c.q.raw, Prettier.PlaceholderDollar, c.args);
  }

  /** The tags a query span ends with: the SQL text, and the error text when there was an error. */
  function SpanTags(q: Query, err: Option<Error>): (tags: map<string, string>)
    ensures "query" in tags && tags["query"] == q.raw
    ensures "err" in tags <==> err.Some?
    ensures err.Some? ==> tags["err"] == err.value.text
    ensures tags.Keys <= {"query", "err"}
  {
    match err
    case None => map["query" := q.raw]
    case Some(e) => map["query" := q.raw, "err" := e.text]
  }

  /** A tracing span: its operation name, its error mark, its tags and how often it was finished. */
  class Span {
    const operation: string
    var errored: bool
    var tags: map<string, string>
    var finishCount: nat

    /** Finished exactly once, under this name, with these tags and this error mark. */
    predicate Closed(name: string, finalTags: map<string, string>, failed: bool)
      reads this
    {
      operation == name && tags == finalTags && errored == failed && finishCount == 1
    }

    constructor (operation: string, tags: map<string, string>)
      ensures this.operation == operation && this.tags == tags
      ensures !errored && finishCount == 0
    {
      this.operation := operation;
      this.tags := tags;
      errored := false;
      finishCount := 0;
    }

    /** `ext.Error.Set(span, true)` followed by `span.SetTag("err", text)`. */
    method Fail(text: string)
      modifies this
      ensures errored && tags == old(tags)["err" := text]
      ensures finishCount == old(finishCount)
    {
      errored := true;
      tags := tags["err" := text];
    }

    /** `span.Finish()`. */
    method Finish()
      modifies this
      ensures finishCount == old(finishCount) + 1
      ensures errored == old(errored) && tags == old(tags)
    {
      finishCount := finishCount + 1;
    }
  }

  /** The database handle `NewDB` returns, with the record of what it has done. */
  class DB {
    /** The pool and the transactions: the reply to the last call of the trace. */
    const driver: seq<Call> -> Reply
    /** The row scanner: the error, if any, of scanning a row set. */
    const scanner: Scan -> Option<Error>

    /** Every call that reached the pool or a transaction, in order. */
    var calls: seq<Call>
    /** Every scan attempted, in order. */
    var scans: seq<Scan>
    /** Every call of `logQuery`, in order; `Printed` gives the line each one prints. */
    var log: seq<LogCall>
    /** Every span started, in order of starting. */
    var spans: seq<Span>

    /** `NewDB`: a handle over the given pool; nothing has happened yet. */
    constructor (driver: seq<Call> -> Reply, scanner: Scan -> Option<Error>)
      ensures this.driver == driver && this.scanner == scanner
      ensures calls == [] && scans == [] && log == [] && spans == []
    {
      this.driver := driver;
      this.scanner := scanner;
      calls := [];
      scans := [];
      log := [];
      spans := [];
    }

    /** `opentracing.StartSpanFromContext`: a new, unfinished span, and the context it is active in. */
    method StartSpan(ctx: Context, operation: string, tags: map<string, string>) returns (span: Span, spanCtx: Context)
      modifies this
      ensures fresh(span) && span.operation == operation && span.tags == tags
      ensures !span.errored && span.finishCount == 0
      ensures spans == old(spans) + [span]
      ensures spanCtx == SpanContext(ctx, |old(spans)|)
      ensures calls == old(calls) && scans == old(scans) && log == old(log)
    {
      span := new Span(operation, tags);
      spanCtx := SpanContext(ctx, |spans|);
      spans := spans + [span];
    }

    /** `logQuery`: logs the query's name and its prettified text. */
    method LogQuery(ctx: Context, q: Query, args: seq<Prettier.Arg>)
      modifies this
      ensures log == old(log) + [LogCall(ctx, q, args)]
      ensures calls == old(calls) && scans == old(scans) && spans == old(spans)
    {
      log := log + [LogCall(ctx, q, args)];
    }

    /** Sends a call to its target and returns the driver's reply. */
    method Send(call: Call) returns (reply: Reply)
      modifies this
      ensures calls == old(calls) + [call] && reply == driver(calls)
      ensures scans == old(scans) && log == old(log) && spans == old(spans)
    {
      calls := calls + [call];
      reply := driver(calls);
    }

    /** `pgxscan.ScanOne` or `pgxscan.ScanAll` over a row set: the scanner's error, if any. */
    method ScanRows(scan: Scan) returns (err: Option<Error>)
      modifies this
      ensures scans == old(scans) + [scan] && err == scanner(scan)
      ensures calls == old(calls) && log == old(log) && spans == old(spans)
    {
      scans := scans + [scan];
      err := scanner(scan);
    }

    /**
      `ExecContext`: runs a statement in the context's transaction, or on
      the pool when there is none, inside a finished span that records a
      failure; the driver's command tag and error come back unchanged.
      `span` names the span it started.
     */
    method ExecContext(ctx: Context, q: Query, args: seq<Prettier.Arg>) returns (tag: nat, err: Option<Error>, ghost span: Span)
      modifies this
      ensures calls == old(calls) + [Call(Route(ctx), ExecOp(q.raw, args))]
      ensures tag == driver(calls).handle && err == driver(calls).err
      ensures spans == old(spans) + [span] && fresh(span)
      ensures span.Closed(q.name, SpanTags(q, err), err.Some?)
      ensures log == old(log) + [LogCall(SpanContext(ctx, |old(spans)|), q, args)]
      ensures scans == old(scans)
    {
      var s, spanCtx := StartSpan(ctx, q.name, map["query" := q.raw]);
      LogQuery(spanCtx, q, args);
      SpanContextKeepsRoute(ctx, |old(spans)|);
      var reply := Send(Call(Route(spanCtx), ExecOp(q.raw, args)));
      tag, err := reply.handle, reply.err;
      if err.Some? {
        s.Fail(err.value.text);
      }
      s.Finish();
      span := s;
    }

    /**
      `QueryContext`: runs a query in the context's transaction, or on the
      pool when there is none, inside a finished span that records a
      failure; the driver's row set and error come back unchanged.
     */
    method QueryContext(ctx: Context, q: Query, args: seq<Prettier.Arg>) returns (rows: nat, err: Option<Error>, ghost span: Span)
      modifies this
      ensures calls == old(calls) + [Call(Route(ctx), QueryOp(q.raw, args))]
      ensures rows == driver(calls).handle && err == driver(calls).err
      ensures spans == old(spans) + [span] && fresh(span)
      ensures span.Closed(q.name, SpanTags(q, err), err.Some?)
      ensures log == old(log) + [LogCall(SpanContext(ctx, |old(spans)|), q, args)]
      ensures scans == old(scans)
    {
      var s, spanCtx := StartSpan(ctx, q.name, map["query" := q.raw]);
      LogQuery(spanCtx, q, args);
      SpanContextKeepsRoute(ctx, |old(spans)|);
      var reply := Send(Call(Route(spanCtx), QueryOp(q.raw, args)));
      rows, err := reply.handle, reply.err;
      if err.Some? {
        s.Fail(err.value.text);
      }
      s.Finish();
      span := s;
    }

    /**
      `QueryRowContext`: runs a one-row query in the context's transaction,
      or on the pool; a row reports its error only when it is scanned, so
      the span is never marked.
     */
    method QueryRowContext(ctx: Context, q: Query, args: seq<Prettier.Arg>) returns (row: nat, ghost span: Span)
      modifies this
      ensures calls == old(calls) + [Call(Route(ctx), QueryRowOp(q.raw, args))]
      ensures row == driver(calls).handle
      ensures spans == old(spans) + [span] && fresh(span)
      ensures span.Closed(q.name, SpanTags(q, None), false)
      ensures log == old(log) + [LogCall(SpanContext(ctx, |old(spans)|), q, args)]
      ensures scans == old(scans)
    {
      var s, spanCtx := StartSpan(ctx, q.name, map["query" := q.raw]);
      LogQuery(spanCtx, q, args);
      SpanContextKeepsRoute(ctx, |old(spans)|);
      var reply := Send(Call(Route(spanCtx), QueryRowOp(q.raw, args)));
      row := reply.handle;
      s.Finish();
      span := s;
    }

    /**
      `BeginTx`: always starts the transaction on the pool, even inside a
      transaction, in a span named "BeginTx" that is neither tagged nor
      marked; nothing is logged.
     */
    method BeginTx(ctx: Context, options: TxOptions) returns (tx: Tx, err: Option<Error>, ghost span: Span)
      modifies this
      ensures calls == old(calls) + [Call(Pool, BeginOp(options))]
      ensures tx == Tx(driver(calls).handle) && err == driver(calls).err
      ensures spans == old(spans) + [span] && fresh(span)
      ensures span.Closed("BeginTx", map[], false)
      ensures log == old(log) && scans == old(scans)
    {
      var s, spanCtx := StartSpan(ctx, "BeginTx", map[]);
      var reply := Send(Call(Pool, BeginOp(options)));
      tx, err := Tx(reply.handle), reply.err;
      s.Finish();
      span := s;
    }

    /**
      `ScanOneContext` (kind `One`) and `ScanAllContext` (kind `All`): a
      query through `QueryContext`, in a span of its own, then a scan of the
      rows. A failed query is not scanned; the query's or the scan's error
      is returned unchanged and recorded on the outer span. `outer` is the
      scan's own span, `inner` the one `QueryContext` started.
     */
    method ScanContext(kind: ScanKind, ctx: Context, q: Query, args: seq<Prettier.Arg>)
      returns (err: Option<Error>, ghost outer: Span, ghost inner: Span)
      modifies this
      ensures calls == old(calls) + [Call(Route(ctx), QueryOp(q.raw, args))]
      ensures var reply := driver(calls);
        && (reply.err.Some? ==> scans == old(scans) && err == reply.err)
        && (reply.err.None? ==> scans == old(scans) + [Scan(kind, reply.handle)] && err == scanner(Scan(kind, reply.handle)))
      ensures spans == old(spans) + [outer, inner] && fresh(outer) && fresh(inner)
      ensures outer.Closed(q.name, SpanTags(q, err), err.Some?)
      ensures inner.Closed(q.name, SpanTags(q, driver(calls).err), driver(calls).err.Some?)
      ensures var outerCtx := SpanContext(ctx, |old(spans)|);
        log == old(log) + [LogCall(outerCtx, q, args), LogCall(SpanContext(outerCtx, |old(spans)| + 1), q, args)]
    {
      var s, spanCtx := StartSpan(ctx, q.name, map["query" := q.raw]);
      LogQuery(spanCtx, q, args);
      SpanContextKeepsRoute(ctx, |old(spans)|);
      var rows, qerr;
      rows, qerr, inner := QueryContext(spanCtx, q, args);
      assert spans == old(spans) + [s, inner];
      ghost var queried := calls;
      if qerr.Some? {
        err := qerr;
      } else {
        err := ScanRows(Scan(kind, rows));
      }
      assert calls == queried;
      if err.Some? {
        s.Fail(err.value.text);
      }
      s.Finish();
      outer := s;
    }
  }

  /** A context that never had `TxKey` set sends every query operation to the pool. */
  lemma NoTxKeyRoutesToPool(ctx: Context)
    requires NeverSet(ctx, TxKey)
    ensures Route(ctx) == Pool
  {
    NoTxWithoutTxKey(ctx);
  }

  /** Attaching a transaction inside another routes to the inner one. */
  lemma InnerTxWins(ctx: Context, t1: Tx, t2: Tx)
    ensures Route(MakeContextTx(MakeContextTx(ctx, t1), t2)) == InTx(t2)
  {
  }
}
