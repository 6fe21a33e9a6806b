/** The poststate proof of packages/contracts/acp_operator_process_fence.py: an ordered row preimage, a
    declared delta, and the poststate recomputed row by row. */
module ProcessFence {
  import opened Digests
  import opened Outcomes
  import opened Ordering

  // ----- rows -----

  /** A stored value, as the contract compares it. */
  datatype Val =
    | Null | Text(s: string) | Int(n: int) | Json(canonical: string)
    | TerminalReceipt(root: Val, sequence: Val, event: Val)

  /** The columns the contract names, and every other by its name. */
  datatype Column =
    | Status | AuthorityStatus | UpdatedAt | Version | RootRunId | RunId | ParentRunId | OwnerPrincipal
    | WorkspaceId | SessionId | TraceId | TerminalIngressSequence | TerminalIngressDigest | UnknownClaimCount
    | UnknownClaimsDigest | TerminalSequence | TerminalEventDigest | Named(name: string)

  type Columns = map<Column, Val>

  datatype Row = Row(table: string, key: Columns, row: Columns)

  /** The value of a column, null where the row lacks it. */
  function Get(c: Columns, k: Column): Val { if k in c then c[k] else Null }

  const TURNS := "agent_runtime_turns"
  const RUNS := "agent_runs"

  const CHILD_TABLES := {
    "agent_acp_native_agent_registrations", "agent_runtime_registrations", "agent_acp_tool_ingress_observations",
    "agent_acp_domain_call_observations", "agent_domain_call_evidence", "agent_domain_correction_buckets",
    "agent_domain_call_claims", "agent_approvals", "agent_audit"}

  const PRODUCT_TABLES := {
    TURNS, RUNS, "workspaces", "users", "workspace_memberships", "product_conversations",
    "agent_runtime_authority_current", "agent_runtime_authority_boot_receipts", "agent_runtime_receipts",
    "operations_audit"}

  const ALLOWED_TABLES := PRODUCT_TABLES + CHILD_TABLES

  const ROOT_MUTABLE: set<Column> := {
    Status, AuthorityStatus, UpdatedAt, TerminalIngressSequence, TerminalIngressDigest, UnknownClaimCount,
    UnknownClaimsDigest}

  const RUN_MUTABLE: set<Column> := {Status, AuthorityStatus, UpdatedAt, Version}

  // ----- the order of the preimage -----

  /** The canonical JSON of a row key, left to the caller's `canonical_json`. */
  type Encoder = Columns -> string

  datatype SortKey = SortKey(table: string, key: string)

  function KeyOf(r: Row, encode: Encoder): SortKey { SortKey(r.table, encode(r.key)) }

  /** Tuple order of `(table, encoded key)`. */
  predicate KeyLt(a: SortKey, b: SortKey) {
    (a.table != b.table && StrLe(a.table, b.table)) || (a.table == b.table && a.key != b.key && StrLe(a.key, b.key))
  }

  /** The canonical JSON of `[table, key]`. */
  function UniqueText(k: SortKey): string { "[\"" + k.table + "\"," + k.key + "]" }

  ghost predicate StrictlyOrdered(rows: seq<Row>, encode: Encoder) {
    forall i, j :: 0 <= i < j < |rows| ==> KeyLt(KeyOf(rows[i], encode), KeyOf(rows[j], encode))
  }

  predicate KeyColumnsAgree(r: Row) { forall k <- r.key :: Get(r.row, k) == r.key[k] }

  /** What the ordering loop is there to establish. */
  ghost predicate WellOrdered(rows: seq<Row>, allowed: set<string>, encode: Encoder) {
    && (forall r <- rows :: r.table in allowed && KeyColumnsAgree(r))
    && StrictlyOrdered(rows, encode)
  }

  lemma KeyLtTransitive(a: SortKey, b: SortKey, c: SortKey)
    requires KeyLt(a, b) && KeyLt(b, c)
    ensures KeyLt(a, c)
  {
    StringOrder();
  }

  lemma KeyLtTotal(a: SortKey, b: SortKey)
    ensures a == b || KeyLt(a, b) || KeyLt(b, a)
    ensures !(KeyLt(a, b) && KeyLt(b, a)) && !KeyLt(a, a)
  {
    StringOrder();
  }

  /** No table name needs escaping. */
  predicate Plain(tables: set<string>) { forall t <- tables :: '"' !in t }

  lemma AllowedTablesPlain()
    ensures Plain(ALLOWED_TABLES)
  {
    ChildTablesPlain();
    ProductTablesPlain();
  }

  lemma ChildTablesPlain()
    ensures Plain(CHILD_TABLES)
  {
  }

  lemma ProductTablesPlain()
    ensures Plain(PRODUCT_TABLES)
  {
  }

  /** Table and key can be read off the unique text. */
  lemma UniqueTextInjective(a: SortKey, b: SortKey)
    requires '"' !in a.table && '"' !in b.table && UniqueText(a) == UniqueText(b)
    ensures a == b
  {
    var s, t := UniqueText(a), UniqueText(b);
    var m, n := |a.table|, |b.table|;
    assert s[2 + m] == '"' && t[2 + n] == '"';
    assert forall i :: 0 <= i < m ==> s[2 + i] == a.table[i];
    assert forall i :: 0 <= i < n ==> t[2 + i] == b.table[i];
    assert m == n;
    assert s[2..2 + m] == a.table && t[2..2 + m] == b.table;
    assert s[2 + m + 2..|s| - 1] == a.key && t[2 + m + 2..|t| - 1] == b.key;
  }

  /** What the loop has established after `i` rows. */
  ghost predicate Scanned(rows: seq<Row>, allowed: set<string>, encode: Encoder, i: nat, seen: set<string>,
                          previous: Option<SortKey>)
    requires i <= |rows|
  {
    && (forall j :: 0 <= j < i ==> rows[j].table in allowed)
    && (forall j :: 0 <= j < i ==> UniqueText(KeyOf(rows[j], encode)) in seen)
    && (forall t <- seen :: exists j :: 0 <= j < i && t == UniqueText(KeyOf(rows[j], encode)))
    && previous == (if i == 0 then None else Some(KeyOf(rows[i - 1], encode)))
    && StrictlyOrdered(rows[..i], encode)
  }

  lemma BadRow(rows: seq<Row>, allowed: set<string>, encode: Encoder, i: nat)
    requires i < |rows| && (rows[i].table !in allowed || !KeyColumnsAgree(rows[i]))
    ensures !WellOrdered(rows, allowed, encode)
  {
    assert rows[i] in rows;
  }

  lemma AllScanned(rows: seq<Row>, allowed: set<string>, encode: Encoder, seen: set<string>, previous: Option<SortKey>)
    requires Scanned(rows, allowed, encode, |rows|, seen, previous)
    requires forall j :: 0 <= j < |rows| ==> KeyColumnsAgree(rows[j])
    ensures WellOrdered(rows, allowed, encode)
  {
    assert rows[..|rows|] == rows;
  }

  /** The loop over adjacent rows with its set of seen texts: it accepts exactly the strictly ordered lists. */
  method CheckOrder(rows: seq<Row>, allowed: set<string>, encode: Encoder) returns (ok: bool)
    requires Plain(allowed)
    ensures ok <==> WellOrdered(rows, allowed, encode)
  {
    var seen: set<string> := {};
    var previous: Option<SortKey> := None;
    for i := 0 to |rows|
      invariant Scanned(rows, allowed, encode, i, seen, previous)
      invariant forall j :: 0 <= j < i ==> KeyColumnsAgree(rows[j])
    {
      if rows[i].table !in allowed {
        BadRow(rows, allowed, encode, i);
        return false;
      }
      var key := KeyOf(rows[i], encode);
      var unique := UniqueText(key);
      if unique in seen || (previous.Some? && KeyLt(key, previous.value)) {
        OutOfOrder(rows, allowed, encode, i, seen, previous);
        assert !WellOrdered(rows, allowed, encode);
        return false;
      }
      InOrder(rows, allowed, encode, i, seen, previous);
      seen := seen + {unique};
      previous := Some(key);
      if !KeyColumnsAgree(rows[i]) {
        BadRow(rows, allowed, encode, i);
        return false;
      }
    }
    AllScanned(rows, allowed, encode, seen, previous);
    return true;
  }

  lemma OutOfOrder(rows: seq<Row>, allowed: set<string>, encode: Encoder, i: nat, seen: set<string>,
                   previous: Option<SortKey>)
    requires Plain(allowed) && i < |rows| && Scanned(rows, allowed, encode, i, seen, previous)
    requires rows[i].table in allowed
    requires var key := KeyOf(rows[i], encode);
             UniqueText(key) in seen || (previous.Some? && KeyLt(key, previous.value))
    ensures !StrictlyOrdered(rows, encode)
  {
    var key := KeyOf(rows[i], encode);
    if UniqueText(key) in seen {
      var j :| 0 <= j < i && UniqueText(key) == UniqueText(KeyOf(rows[j], encode));
      UniqueTextInjective(key, KeyOf(rows[j], encode));
      KeyLtTotal(key, key);
    } else {
      KeyLtTotal(key, KeyOf(rows[i - 1], encode));
    }
  }

  /** The adjacent test and the seen set together say the row is above all before it. */
  lemma InOrder(rows: seq<Row>, allowed: set<string>, encode: Encoder, i: nat, seen: set<string>,
                previous: Option<SortKey>)
    requires i < |rows| && Scanned(rows, allowed, encode, i, seen, previous) && rows[i].table in allowed
    requires var key := KeyOf(rows[i], encode);
             UniqueText(key) !in seen && (previous.Some? ==> !KeyLt(key, previous.value))
    ensures var key := KeyOf(rows[i], encode);
            Scanned(rows, allowed, encode, i + 1, seen + {UniqueText(key)}, Some(key))
  {
    AboveAll(rows[..i], rows[i], encode);
    ExtendOrder(rows[..i], rows[i], encode);
    assert rows[..i + 1] == rows[..i] + [rows[i]];
    SeenSoFar(rows, encode, i, seen);
  }

  /** A row not below the last and not equal to any is above all of an ordered list. */
  lemma AboveAll(init: seq<Row>, r: Row, encode: Encoder)
    requires StrictlyOrdered(init, encode)
    requires init != [] ==> !KeyLt(KeyOf(r, encode), KeyOf(init[|init| - 1], encode))
    requires init != [] ==> KeyOf(r, encode) != KeyOf(init[|init| - 1], encode)
    ensures forall j :: 0 <= j < |init| ==> KeyLt(KeyOf(init[j], encode), KeyOf(r, encode))
  {
    if init != [] {
      var last := KeyOf(init[|init| - 1], encode);
      KeyLtTotal(last, KeyOf(r, encode));
      forall j | 0 <= j < |init| ensures KeyLt(KeyOf(init[j], encode), KeyOf(r, encode)) {
        if j < |init| - 1 { KeyLtTransitive(KeyOf(init[j], encode), last, KeyOf(r, encode)); }
      }
    }
  }

  lemma SeenSoFar(rows: seq<Row>, encode: Encoder, i: nat, seen: set<string>)
    requires i < |rows| && forall t <- seen :: exists j :: 0 <= j < i && t == UniqueText(KeyOf(rows[j], encode))
    ensures forall t <- seen + {UniqueText(KeyOf(rows[i], encode))} ::
              exists j :: 0 <= j < i + 1 && t == UniqueText(KeyOf(rows[j], encode))
  {
  }

  lemma ExtendOrder(init: seq<Row>, r: Row, encode: Encoder)
    requires StrictlyOrdered(init, encode)
    requires forall j :: 0 <= j < |init| ==> KeyLt(KeyOf(init[j], encode), KeyOf(r, encode))
    ensures StrictlyOrdered(init + [r], encode)
  {
  }

  // ----- the proof -----

  /** What the operator proves: an interruption, or the cleanup after a failed or completed terminal. */
  datatype Fact = Interruption | FailedTerminal | CompletedCleanup

  datatype Scope = Scope(rootId: Val, owner: Val, workspace: Val, session: Val, trace: Val)

  datatype RunDelta = RunDelta(id: string, before: Columns, after: Columns)

  datatype Delta = Delta(
    closeAt: string, rootId: Val, rootBefore: Columns, rootAfter: Columns, runs: seq<RunDelta>)

  datatype Proof = Proof(
    fact: Fact, scope: Scope, rows: seq<Row>, delta: Delta, ingressSequence: Val, ingressDigest: Val,
    unknownCount: Val, unknownDigest: Val, settlement: Val, operation: string,
    auditId: Digest<string>, preimage: Digest<seq<Row>>, expected: Digest<seq<Row>>)

  predicate TerminalCleanup(p: Proof) { p.fact != Interruption }

  predicate IsRootRow(p: Proof, r: Row) { r.table == TURNS && Get(r.row, RootRunId) == p.scope.rootId }

  predicate IsRunOfRoot(p: Proof, r: Row) { r.table == RUNS && Get(r.row, RootRunId) == p.scope.rootId }

  predicate OpenAuthority(v: Val) { v == Text("active") || v == Text("authority_revoked_unconfirmed") }

  predicate ActiveRow(r: Columns) { Get(r, Status) == Text("active") && OpenAuthority(Get(r, AuthorityStatus)) }

  predicate IsActiveRun(p: Proof, r: Row) { IsRunOfRoot(p, r) && ActiveRow(r.row) }

  predicate ClosedRow(r: Columns) {
    Get(r, Status) in {Text("completed"), Text("failed"), Text("cancelled"), Text("interrupted")}
    && Get(r, AuthorityStatus) == Text("closed")
  }

  predicate InScope(p: Proof, r: Columns) {
    && Get(r, OwnerPrincipal) == p.scope.owner && Get(r, WorkspaceId) == p.scope.workspace
    && Get(r, SessionId) == p.scope.session && Get(r, TraceId) == p.scope.trace
  }

  /** The status the fact gives the root. */
  function FactStatus(f: Fact): Val {
    match f
    case Interruption => Text("interrupted")
    case FailedTerminal => Text("failed")
    case CompletedCleanup => Text("completed")
  }

  /** The rows with a property, in their order. */
  function Select(rows: seq<Row>, keep: Row -> bool): (r: seq<Row>)
    ensures forall x :: x in r <==> x in rows && keep(x)
  {
    if rows == [] then []
    else if keep(rows[0]) then [rows[0]] + Select(rows[1..], keep)
    else Select(rows[1..], keep)
  }

  function RootRows(p: Proof): seq<Row> { Select(p.rows, r => IsRootRow(p, r)) }
  function RunRows(p: Proof): seq<Row> { Select(p.rows, r => IsRunOfRoot(p, r)) }
  function ActiveRuns(p: Proof): seq<Row> { Select(p.rows, r => IsActiveRun(p, r)) }

  /** The run deltas by run id; of several with one id the last counts. */
  function ById(runs: seq<RunDelta>): (m: map<string, RunDelta>)
    ensures forall id :: id in m <==> exists d <- runs :: d.id == id
    ensures forall id <- m :: m[id].id == id && m[id] in runs
  {
    if runs == [] then map[]
    else
      var last := runs[|runs| - 1];
      assert forall d <- runs :: d == last || d in runs[..|runs| - 1];
      ById(runs[..|runs| - 1])[last.id := last]
  }

  predicate HexText(v: Val) { v.Text? && IsHex(v.s, 64) }

  /** The proof's own terminal facts: a non-negative ingress sequence, no unknown claims, and two digests. */
  predicate TerminalFactsOk(p: Proof) {
    p.ingressSequence.Int? && p.ingressSequence.n >= 0 && HexText(p.ingressDigest)
    && p.unknownCount == Int(0) && HexText(p.unknownDigest)
  }

  predicate RootDeltaAgrees(p: Proof, root: Columns) {
    && p.delta.rootId == p.scope.rootId && InScope(p, root)
    && Get(root, Status) == (if p.fact == Interruption then Text("active") else FactStatus(p.fact))
    && (if TerminalCleanup(p) then Get(root, AuthorityStatus) == Text("closed")
        else OpenAuthority(Get(root, AuthorityStatus)))
    && (TerminalCleanup(p) ==> Get(root, TerminalSequence).Int? && Get(root, TerminalSequence).n >= 1)
    && (TerminalCleanup(p) ==> HexText(Get(root, TerminalEventDigest)))
    && (!TerminalCleanup(p) ==> Get(root, TerminalSequence) == Null && Get(root, TerminalEventDigest) == Null)
    && p.delta.rootBefore.Keys == ROOT_MUTABLE && p.delta.rootAfter.Keys == ROOT_MUTABLE
    && (forall k <- ROOT_MUTABLE :: Get(p.delta.rootBefore, k) == Get(root, k))
    && Get(p.delta.rootAfter, Status) == FactStatus(p.fact) && Get(p.delta.rootAfter, AuthorityStatus) == Text("closed")
    && (TerminalCleanup(p) ==> p.delta.rootAfter == p.delta.rootBefore)
    && (!TerminalCleanup(p) ==> Get(p.delta.rootAfter, UpdatedAt) == Text(p.delta.closeAt))
    && Get(p.delta.rootAfter, TerminalIngressSequence) == p.ingressSequence
    && Get(p.delta.rootAfter, TerminalIngressDigest) == p.ingressDigest
    && Get(p.delta.rootAfter, UnknownClaimCount) == p.unknownCount
    && Get(p.delta.rootAfter, UnknownClaimsDigest) == p.unknownDigest
  }

  predicate RunDeltaAgrees(p: Proof, run: Columns, d: RunDelta) {
    && InScope(p, run)
    && d.before.Keys == RUN_MUTABLE && d.after.Keys == RUN_MUTABLE
    && (forall k <- RUN_MUTABLE :: Get(d.before, k) == Get(run, k))
    && Get(d.after, Status) == Text("interrupted") && Get(d.after, AuthorityStatus) == Text("closed")
    && Get(d.after, UpdatedAt) == Text(p.delta.closeAt)
    && Get(d.before, Version).Int? && Get(d.after, Version) == Int(Get(d.before, Version).n + 1)
  }

  /** The deltas by run id name exactly the active runs, with ids that are texts. */
  predicate DeltasNameRuns(byId: map<string, RunDelta>, active: seq<Row>) {
    && (forall r <- active :: Get(r.row, RunId).Text? && Get(r.row, RunId).s in byId)
    && (forall id <- byId :: exists r <- active :: Get(r.row, RunId) == Text(id))
  }

  /** The run deltas name exactly the active runs of the root, and every other run of it is closed. */
  predicate RunDeltasAgree(p: Proof) {
    && |p.delta.runs| == |ActiveRuns(p)|
    && (TerminalCleanup(p) ==> ActiveRuns(p) == [])
    && DeltasNameRuns(ById(p.delta.runs), ActiveRuns(p))
    && (forall r <- ActiveRuns(p) :: RunDeltaAgrees(p, r.row, ById(p.delta.runs)[Get(r.row, RunId).s]))
    && (forall r <- RunRows(p) :: !ActiveRow(r.row) ==> ClosedRow(r.row) && InScope(p, r.row))
  }

  /** The runs of the root without a parent. */
  function ParentlessRuns(p: Proof): seq<Row> { Select(RunRows(p), (r: Row) => Get(r.row, ParentRunId) == Null) }

  /** The one root run (the run without a parent) has the status the fact speaks of. */
  predicate RootRunAgrees(p: Proof) {
    && (RunRows(p) == [] ==> TerminalCleanup(p) && forall r <- p.rows :: r.table !in CHILD_TABLES)
    && (RunRows(p) != [] ==>
          && |ParentlessRuns(p)| == 1
          && Get(ParentlessRuns(p)[0].row, Status)
             == (if p.fact == Interruption then Text("active") else FactStatus(p.fact))
          && (if TerminalCleanup(p) then Get(ParentlessRuns(p)[0].row, AuthorityStatus) == Text("closed")
              else OpenAuthority(Get(ParentlessRuns(p)[0].row, AuthorityStatus))))
  }

  /** The rows of a table. */
  function TableRows(p: Proof, table: string): seq<Row> { Select(p.rows, (r: Row) => r.table == table) }

  predicate HasText(r: Columns, column: string, text: string) { Get(r, Named(column)) == Text(text) }

  /** An active conversation of the owner, in a personal workspace of an active user who is its owner-member. */
  predicate ProductAgrees(p: Proof, conversation: Columns, workspace: Columns, user: Columns, member: Columns) {
    && Get(conversation, OwnerPrincipal) == p.scope.owner && Get(conversation, TraceId) == p.scope.trace
    && Get(conversation, Named("runtime_session_id")) == p.scope.session && Get(conversation, Status) == Text("active")
    && Get(workspace, WorkspaceId) == p.scope.workspace && HasText(workspace, "kind", "personal")
    && Get(workspace, Status) == Text("active") && Get(workspace, Named("reset_id")) == Null
    && Get(user, Named("username")) == p.scope.owner && Get(user, Status) == Text("active")
    && Get(user, Named("user_id")) == Get(workspace, Named("owner_user_id"))
    && Get(member, Named("user_id")) == Get(user, Named("user_id")) && Get(member, WorkspaceId) == p.scope.workspace
    && HasText(member, "role", "owner") && Get(member, Status) == Text("active")
  }

  /** There is exactly one of each, and they agree. */
  predicate ProductRowsAgree(p: Proof) {
    && |TableRows(p, "product_conversations")| == 1 && |TableRows(p, "workspaces")| == 1
    && |TableRows(p, "users")| == 1 && |TableRows(p, "workspace_memberships")| == 1
    && ProductAgrees(p, TableRows(p, "product_conversations")[0].row, TableRows(p, "workspaces")[0].row,
                     TableRows(p, "users")[0].row, TableRows(p, "workspace_memberships")[0].row)
  }

  /** The receipt a terminal root row stands for. */
  function ReceiptOf(p: Proof, root: Columns): Val {
    TerminalReceipt(p.scope.rootId, Get(root, TerminalSequence), Get(root, TerminalEventDigest))
  }

  /** The stored receipts of the root's terminal. */
  function StoredReceipts(p: Proof, root: Columns): seq<Row> {
    Select(TableRows(p, "agent_runtime_receipts"),
           (r: Row) => Get(r.row, Named("sequence")) == Get(root, TerminalSequence))
  }

  /** The frozen settlement and the stored receipt speak of the root's own terminal; before one there is none. */
  predicate SettlementAgrees(p: Proof, root: Columns) {
    if !TerminalCleanup(p) then p.settlement == Null
    else
      && (p.settlement == ReceiptOf(p, root) || (p.fact == FailedTerminal && p.settlement == Null))
      && |StoredReceipts(p, root)| <= 1
      && (StoredReceipts(p, root) == [] ==> p.settlement == ReceiptOf(p, root))
      && (StoredReceipts(p, root) != [] ==>
            Get(StoredReceipts(p, root)[0].row, TraceId) == p.scope.trace
            && Get(StoredReceipts(p, root)[0].row, Named("receipt_json")) == ReceiptOf(p, root))
  }

  /** One poststate row: the declared values written over the row. */
  function PostRow(p: Proof, after: map<string, RunDelta>, r: Row): Row {
    if IsRootRow(p, r) then r.(row := r.row + p.delta.rootAfter)
    else if r.table == RUNS && Get(r.row, RunId).Text? && Get(r.row, RunId).s in after then
      r.(row := r.row + after[Get(r.row, RunId).s].after)
    else r
  }

  function PostRows(p: Proof): (post: seq<Row>)
    ensures |post| == |p.rows|
  {
    seq(|p.rows|, i requires 0 <= i < |p.rows| => PostRow(p, ById(p.delta.runs), p.rows[i]))
  }

  /** The delta fits the rows: one root row, and exactly the active runs of the root. */
  predicate Declared(p: Proof) {
    |RootRows(p)| == 1 && RootDeltaAgrees(p, RootRows(p)[0].row) && RunDeltasAgree(p)
  }

  const AUDIT_PREFIX := "acp-operator-process-fence:"

  /** The preimage is the one that was hashed, and the inserted audit row is named after the operation. */
  predicate SealsAgree(p: Proof) {
    p.preimage == Sha256(p.rows) && p.auditId == Sha256(AUDIT_PREFIX + p.operation)
  }

  /** Everything the model's checks ask of a proof. */
  ghost predicate Accepts(p: Proof, encode: Encoder) {
    && WellOrdered(p.rows, ALLOWED_TABLES, encode) && TerminalFactsOk(p)
    && Declared(p) && RootRunAgrees(p)
    && SettlementAgrees(p, RootRows(p)[0].row) && ProductRowsAgree(p)
    && SealsAgree(p) && p.expected == Sha256(PostRows(p))
  }

  /** The loop that copies each row and updates it. */
  method ExpectedRows(p: Proof) returns (expected: seq<Row>)
    ensures expected == PostRows(p)
  {
    var after := ById(p.delta.runs);
    expected := [];
    for i := 0 to |p.rows|
      invariant expected == PostRows(p)[..i]
    {
      var copied := p.rows[i];
      if IsRootRow(p, copied) {
        copied := copied.(row := copied.row + p.delta.rootAfter);
      } else if copied.table == RUNS && Get(copied.row, RunId).Text? && Get(copied.row, RunId).s in after {
        copied := copied.(row := copied.row + after[Get(copied.row, RunId).s].after);
      }
      expected := expected + [copied];
    }
  }

  method ValidateProcessFenceProof(p: Proof, encode: Encoder) returns (ok: bool)
    ensures ok <==> Accepts(p, encode)
  {
    AllowedTablesPlain();
    ok := CheckOrder(p.rows, ALLOWED_TABLES, encode);
    if ok {
      var expected := ExpectedRows(p);
      ok := TerminalFactsOk(p) && Declared(p) && RootRunAgrees(p) && SettlementAgrees(p, RootRows(p)[0].row)
            && ProductRowsAgree(p) && SealsAgree(p) && p.expected == Sha256(expected);
    }
  }

  // ----- what an accepted poststate is -----

  /** Two rows agree outside a set of columns. */
  ghost predicate SameOutside(a: Columns, b: Columns, columns: set<Column>) {
    forall k: Column :: k !in columns ==> (k in a <==> k in b) && Get(a, k) == Get(b, k)
  }

  /** Rows are neither added, dropped nor moved; each keeps its table and key, so the order stays strict. */
  lemma PoststateKeepsRows(p: Proof, encode: Encoder)
    requires StrictlyOrdered(p.rows, encode)
    ensures forall i :: 0 <= i < |p.rows| ==>
              PostRows(p)[i].table == p.rows[i].table && PostRows(p)[i].key == p.rows[i].key
    ensures StrictlyOrdered(PostRows(p), encode)
  {
    KeepOrder(p.rows, PostRows(p), encode);
  }

  lemma KeepOrder(a: seq<Row>, b: seq<Row>, encode: Encoder)
    requires |a| == |b| && forall i :: 0 <= i < |a| ==> b[i].table == a[i].table && b[i].key == a[i].key
    requires StrictlyOrdered(a, encode)
    ensures StrictlyOrdered(b, encode)
  {
    forall i, j | 0 <= i < j < |b| ensures KeyLt(KeyOf(b[i], encode), KeyOf(b[j], encode)) {
      assert KeyOf(b[i], encode) == KeyOf(a[i], encode) && KeyOf(b[j], encode) == KeyOf(a[j], encode);
    }
  }

  /** No two run rows share a run id. */
  ghost predicate UniqueRunIds(rows: seq<Row>) {
    forall i, j ::
      0 <= i < j < |rows| && rows[i].table == RUNS && rows[j].table == RUNS && Get(rows[i].row, RunId).Text? ==>
        Get(rows[i].row, RunId) != Get(rows[j].row, RunId)
  }

  // The lemmas below need only that the delta fits the rows, which every accepted proof shows.

  /** The row is a run row some delta names. */
  predicate HasDelta(p: Proof, r: Row) {
    r.table == RUNS && Get(r.row, RunId).Text? && Get(r.row, RunId).s in ById(p.delta.runs)
  }

  lemma ActiveRunDelta(p: Proof, r: Row)
    requires RunDeltasAgree(p) && r in p.rows && IsActiveRun(p, r)
    ensures HasDelta(p, r) && RunDeltaAgrees(p, r.row, ById(p.delta.runs)[Get(r.row, RunId).s])
  {
    assert r in ActiveRuns(p);
  }

  /** Every delta is that of an active run of the root. */
  lemma DeltaHasActiveRun(p: Proof, id: string) returns (r: Row)
    requires RunDeltasAgree(p) && id in ById(p.delta.runs)
    ensures r in p.rows && IsActiveRun(p, r) && Get(r.row, RunId) == Text(id)
    ensures RunDeltaAgrees(p, r.row, ById(p.delta.runs)[id])
  {
    r :| r in ActiveRuns(p) && Get(r.row, RunId) == Text(id);
  }

  lemma RootIsUnique(p: Proof, r: Row)
    requires Declared(p) && r in p.rows && IsRootRow(p, r)
    ensures r == RootRows(p)[0] && RootDeltaAgrees(p, r.row)
  {
    assert r in RootRows(p);
  }

  /** What a write of run delta `d` does to `run`. */
  ghost predicate Interrupted(p: Proof, run: Columns, after: Columns) {
    && SameOutside(run, after, RUN_MUTABLE)
    && Get(after, Status) == Text("interrupted") && Get(after, AuthorityStatus) == Text("closed")
    && Get(after, UpdatedAt) == Text(p.delta.closeAt)
    && Get(run, Version).Int? && Get(after, Version) == Int(Get(run, Version).n + 1)
  }

  lemma RunDeltaWrites(p: Proof, run: Columns, d: RunDelta)
    requires RunDeltaAgrees(p, run, d)
    ensures Interrupted(p, run, run + d.after)
  {
    assert Get(run, Version) == Get(d.before, Version);
  }

  /** A row named by a delta has its four columns written, and becomes interrupted and closed. */
  lemma NamedRowPost(p: Proof, r: Row)
    requires RunDeltasAgree(p) && HasDelta(p, r)
    ensures var q := PostRow(p, ById(p.delta.runs), r);
            SameOutside(r.row, q.row, RUN_MUTABLE) && Get(q.row, Status) == Text("interrupted")
            && Get(q.row, AuthorityStatus) == Text("closed")
  {
    RunIsNotRoot(p, r);
    var id := Get(r.row, RunId).s;
    var a := DeltaHasActiveRun(p, id);
    assert ById(p.delta.runs)[id].after.Keys == RUN_MUTABLE;
  }

  /** The frame: the root row changes in its seven columns, runs named by a delta in their four, nothing else. */
  lemma PoststateFrame(p: Proof, i: nat)
    requires Declared(p) && i < |p.rows|
    ensures var r, q := p.rows[i], PostRows(p)[i];
            && (IsRootRow(p, r) ==> SameOutside(r.row, q.row, ROOT_MUTABLE))
            && (HasDelta(p, r) ==> SameOutside(r.row, q.row, RUN_MUTABLE))
            && (!IsRootRow(p, r) && !HasDelta(p, r) ==> q == r)
  {
    var r := p.rows[i];
    if IsRootRow(p, r) {
      RootIsUnique(p, r);
    }
    if HasDelta(p, r) {
      NamedRowPost(p, r);
    }
  }

  /** Each previously active run ends interrupted and closed, at the declared time, one version on. */
  lemma ActiveRunPost(p: Proof, i: nat)
    requires RunDeltasAgree(p) && i < |p.rows| && IsActiveRun(p, p.rows[i])
    ensures Interrupted(p, p.rows[i].row, PostRows(p)[i].row)
  {
    var r := p.rows[i];
    ActiveRunDelta(p, r);
    RunDeltaWrites(p, r.row, ById(p.delta.runs)[Get(r.row, RunId).s]);
    NamedPostRow(p, r);
  }

  lemma NamedPostRow(p: Proof, r: Row)
    requires HasDelta(p, r)
    ensures PostRow(p, ById(p.delta.runs), r).row == r.row + ById(p.delta.runs)[Get(r.row, RunId).s].after
  {
    RunIsNotRoot(p, r);
  }

  lemma RunIsNotRoot(p: Proof, r: Row)
    requires r.table == RUNS
    ensures !IsRootRow(p, r)
  {
    assert |RUNS| != |TURNS|;
  }

  /** With unique run ids, the run rows that change are exactly the previously active runs of this root. */
  lemma OnlyActiveRunsChange(p: Proof, i: nat)
    requires Declared(p) && UniqueRunIds(p.rows) && i < |p.rows| && !IsRootRow(p, p.rows[i])
    ensures PostRows(p)[i] != p.rows[i] <==> IsActiveRun(p, p.rows[i])
  {
    var r := p.rows[i];
    if IsActiveRun(p, r) {
      ActiveRunPost(p, i);
    } else if HasDelta(p, r) {
      NamedIsActive(p, i);
    }
  }

  lemma SameRunId(rows: seq<Row>, i: nat, j: nat)
    requires UniqueRunIds(rows) && i < |rows| && j < |rows| && rows[i].table == RUNS && rows[j].table == RUNS
    requires Get(rows[i].row, RunId).Text? && Get(rows[i].row, RunId) == Get(rows[j].row, RunId)
    ensures i == j
  {
  }

  lemma NamedIsActive(p: Proof, i: nat)
    requires RunDeltasAgree(p) && UniqueRunIds(p.rows) && i < |p.rows| && HasDelta(p, p.rows[i])
    ensures IsActiveRun(p, p.rows[i])
  {
    var a := DeltaHasActiveRun(p, Get(p.rows[i].row, RunId).s);
    var j :| 0 <= j < |p.rows| && p.rows[j] == a;
    SameRunId(p.rows, i, j);
  }

  /** Without unique ids the rewriting goes by id alone: it reaches exactly the run rows of a named id,
      of whatever root or status. */
  lemma RewritingGoesById(p: Proof, i: nat)
    requires RunDeltasAgree(p) && i < |p.rows| && p.rows[i].table == RUNS
    ensures HasDelta(p, p.rows[i]) ==> Get(PostRows(p)[i].row, Status) == Text("interrupted")
                                       && Get(PostRows(p)[i].row, AuthorityStatus) == Text("closed")
    ensures !HasDelta(p, p.rows[i]) ==> PostRows(p)[i] == p.rows[i]
  {
    RunIsNotRoot(p, p.rows[i]);
    if HasDelta(p, p.rows[i]) {
      NamedRowPost(p, p.rows[i]);
    }
  }

  /** The root ends with the fact's status and closed authority, and with the declared ingress facts. */
  lemma RootPost(p: Proof, i: nat)
    requires Declared(p) && i < |p.rows| && IsRootRow(p, p.rows[i])
    ensures var after := PostRows(p)[i].row;
            && Get(after, Status) == FactStatus(p.fact) && Get(after, AuthorityStatus) == Text("closed")
            && Get(after, TerminalIngressSequence) == p.ingressSequence
            && Get(after, TerminalIngressDigest) == p.ingressDigest
            && Get(after, UnknownClaimCount) == p.unknownCount
            && Get(after, UnknownClaimsDigest) == p.unknownDigest
            && (p.fact == Interruption ==> Get(after, UpdatedAt) == Text(p.delta.closeAt))
  {
    RootIsUnique(p, p.rows[i]);
  }

  /** Every run of the root ends in a terminal status with closed authority; none is left active. */
  lemma EveryRunEndsClosed(p: Proof, i: nat)
    requires RunDeltasAgree(p) && i < |p.rows| && IsRunOfRoot(p, PostRows(p)[i])
    ensures ClosedRow(PostRows(p)[i].row) && !IsActiveRun(p, PostRows(p)[i])
  {
    var r := p.rows[i];
    TableKept(p, i);
    RewritingGoesById(p, i);
    if !HasDelta(p, r) {
      if IsActiveRun(p, r) { ActiveRunDelta(p, r); }
      assert r in RunRows(p);
    }
  }

  lemma TableKept(p: Proof, i: nat)
    requires i < |p.rows|
    ensures PostRows(p)[i].table == p.rows[i].table
  {
  }

  /** The columns a cleanup's root row must have for its own checks: all that are mutable but the update time. */
  lemma CleanupRootColumns(p: Proof)
    requires Declared(p) && TerminalCleanup(p) && TerminalFactsOk(p)
    ensures ROOT_MUTABLE - {UpdatedAt} <= RootRows(p)[0].row.Keys
  {
    var root := RootRows(p)[0].row;
    CleanupDelta(p);
    forall k | k in ROOT_MUTABLE && k != UpdatedAt ensures k in root {
      assert p.delta.rootAfter[k] == Get(root, k) && Get(p.delta.rootAfter, k) == Get(root, k);
    }
  }

  /** For a terminal cleanup the poststate is the preimage exactly when the root row has an update time: a missing
      one is written as null. */
  lemma CleanupChangesNothing(p: Proof)
    requires Declared(p) && TerminalCleanup(p) && TerminalFactsOk(p)
    ensures PostRows(p) == p.rows <==> UpdatedAt in RootRows(p)[0].row
  {
    var root := RootRows(p)[0];
    CleanupDelta(p);
    CleanupRootColumns(p);
    UpdateIsIdentity(root.row, p.delta.rootAfter);
    assert ROOT_MUTABLE <= root.row.Keys <==> UpdatedAt in root.row.Keys;
    RootRewritten(p);
  }

  /** A cleanup rewrites nothing but its root row. */
  lemma CleanupPostRow(p: Proof, i: nat)
    requires Declared(p) && TerminalCleanup(p) && i < |p.rows|
    ensures PostRows(p)[i] == p.rows[i]
            || (p.rows[i] == RootRows(p)[0] && PostRows(p)[i].row == p.rows[i].row + p.delta.rootAfter)
    ensures p.rows[i] == RootRows(p)[0] ==> PostRows(p)[i].row == p.rows[i].row + p.delta.rootAfter
  {
    CleanupDelta(p);
    assert RootRows(p)[0] in RootRows(p);
    if IsRootRow(p, p.rows[i]) { RootIsUnique(p, p.rows[i]); }
  }

  lemma RootRewritten(p: Proof)
    requires Declared(p) && TerminalCleanup(p)
    ensures var root := RootRows(p)[0].row;
      PostRows(p) == p.rows <==> root + p.delta.rootAfter == root
  {
    var root := RootRows(p)[0];
    assert root in RootRows(p) && root in p.rows;
    var k :| 0 <= k < |p.rows| && p.rows[k] == root;
    CleanupPostRow(p, k);
    if root.row + p.delta.rootAfter == root.row {
      forall i | 0 <= i < |p.rows| ensures PostRows(p)[i] == p.rows[i] {
        CleanupPostRow(p, i);
        SameRow(p, i);
      }
    }
  }

  lemma SameRow(p: Proof, i: nat)
    requires i < |p.rows| && PostRows(p)[i].row == p.rows[i].row
    ensures PostRows(p)[i] == p.rows[i]
  {
  }

  lemma CleanupDelta(p: Proof)
    requires Declared(p) && TerminalCleanup(p)
    ensures p.delta.runs == [] && p.delta.rootAfter.Keys == ROOT_MUTABLE
    ensures forall k <- ROOT_MUTABLE :: p.delta.rootAfter[k] == Get(RootRows(p)[0].row, k)
  {
    var root := RootRows(p)[0];
    forall k <- ROOT_MUTABLE ensures p.delta.rootAfter[k] == Get(root.row, k) {
      assert Get(p.delta.rootBefore, k) == Get(root.row, k);
    }
  }

  /** Writing back what `get` returns is the identity exactly when no column was missing. */
  lemma UpdateIsIdentity(row: Columns, after: Columns)
    requires forall k <- after :: after[k] == Get(row, k)
    ensures row + after == row <==> after.Keys <= row.Keys
  {
    if row + after == row {
      assert (row + after).Keys == row.Keys + after.Keys;
    }
  }
}
