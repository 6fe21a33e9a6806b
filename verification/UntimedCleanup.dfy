/** A completed cleanup that is accepted and nevertheless writes: its root row has no update time. */
module UntimedCleanup {
  import opened Digests
  import opened Ordering
  import opened ProcessFence

  lemma {:induction false} SelectNone(rows: seq<Row>, keep: Row -> bool)
    requires forall r <- rows :: !keep(r)
    ensures Select(rows, keep) == []
  {
    if rows != [] {
      SelectNone(rows[1..], keep);
    }
  }

  /** A selection that only one place passes. */
  lemma {:induction false} SelectOne(rows: seq<Row>, keep: Row -> bool, i: nat)
    requires i < |rows| && keep(rows[i]) && forall j :: 0 <= j < |rows| && j != i ==> !keep(rows[j])
    ensures Select(rows, keep) == [rows[i]]
  {
    if i == 0 {
      SelectNone(rows[1..], keep);
    } else {
      SelectOne(rows[1..], keep, i - 1);
    }
  }

  const CONVERSATIONS := "product_conversations"
  const ROOT_SCOPE := Scope(Text("root"), Text("owner"), Text("space"), Text("session"), Text("trace"))

  /** Where and whose the root is. */
  function RootPlace(): Columns {
    map[RootRunId := Text("root"), OwnerPrincipal := Text("owner"), WorkspaceId := Text("space"),
        SessionId := Text("session"), TraceId := Text("trace")]
  }

  /** How it ended: completed and closed, with some digest everywhere, and no update time. */
  function RootEnd(digest: Val): Columns {
    map[Status := Text("completed"), AuthorityStatus := Text("closed"), TerminalSequence := Int(1),
        TerminalEventDigest := digest]
  }

  function RootClaims(digest: Val): Columns {
    map[TerminalIngressSequence := Int(0), TerminalIngressDigest := digest, UnknownClaimCount := Int(0),
        UnknownClaimsDigest := digest]
  }

  function RootColumns(digest: Val): Columns { RootPlace() + RootEnd(digest) + RootClaims(digest) }

  function Conversation(): Columns {
    map[OwnerPrincipal := Text("owner"), Named("runtime_session_id") := Text("session"), TraceId := Text("trace"),
        Status := Text("active")]
  }

  function Workspace(): Columns {
    map[WorkspaceId := Text("space"), Named("kind") := Text("personal"), Status := Text("active"),
        Named("owner_user_id") := Int(1)]
  }

  function User(): Columns {
    map[Named("username") := Text("owner"), Status := Text("active"), Named("user_id") := Int(1)]
  }

  function Member(): Columns {
    map[Named("user_id") := Int(1), WorkspaceId := Text("space"), Named("role") := Text("owner"),
        Status := Text("active")]
  }

  predicate FiveTables(rows: seq<Row>) {
    && |rows| == 5 && rows[0].table == TURNS && rows[1].table == CONVERSATIONS && rows[2].table == "users"
    && rows[3].table == "workspace_memberships" && rows[4].table == "workspaces"
  }

  /** The smallest preimage of a completed root. */
  predicate UntimedPreimage(rows: seq<Row>, digest: Val) {
    && FiveTables(rows) && (forall r <- rows :: r.key == map[])
    && rows[0].row == RootColumns(digest) && rows[1].row == Conversation() && rows[2].row == User()
    && rows[3].row == Member() && rows[4].row == Workspace()
  }

  /** What `get` returns for the mutable columns. */
  function Declaration(root: Columns): Columns { map k | k in ROOT_MUTABLE :: Get(root, k) }

  /** The proof for it: what the root row says, declared before and after. */
  predicate IsUntimed(p: Proof, digest: Val) {
    && HexText(digest) && UntimedPreimage(p.rows, digest)
    && p.fact == CompletedCleanup && p.scope == ROOT_SCOPE
    && p.delta.rootId == Text("root") && p.delta.runs == []
    && p.delta.rootBefore == p.delta.rootAfter == Declaration(RootColumns(digest))
    && p.ingressSequence == Int(0) && p.ingressDigest == digest
    && p.unknownCount == Int(0) && p.unknownDigest == digest
    && p.settlement == TerminalReceipt(Text("root"), Int(1), digest) && SealsAgree(p)
  }

  /** The tables named here are told apart by length or by their first character. */
  lemma TablesDiffer()
    ensures var users, members, spaces, receipts :=
        "users", "workspace_memberships", "workspaces", "agent_runtime_receipts";
      |TURNS| == 19 && |RUNS| == 10 && |CONVERSATIONS| == 21 && |users| == 5 && |members| == 21 && |spaces| == 10
      && |receipts| == 22 && CONVERSATIONS[0] == 'p' && members[0] == 'w' && RUNS[0] == 'a' && spaces[0] == 'w'
  {
  }

  /** A table that stands at one place. */
  lemma OnlyTable(p: Proof, i: nat)
    requires i < |p.rows| && forall j :: 0 <= j < |p.rows| && j != i ==> p.rows[j].table != p.rows[i].table
    ensures TableRows(p, p.rows[i].table) == [p.rows[i]]
  {
    SelectOne(p.rows, (r: Row) => r.table == p.rows[i].table, i);
  }

  lemma UntimedRoot(p: Proof)
    requires FiveTables(p.rows) && Get(p.rows[0].row, RootRunId) == p.scope.rootId
    ensures RootRows(p) == [p.rows[0]] && RunRows(p) == [] && ActiveRuns(p) == []
  {
    TablesDiffer();
    assert forall j :: 0 < j < 5 ==> p.rows[j].table != TURNS;
    assert forall r <- p.rows :: r.table != RUNS;
    SelectOne(p.rows, (r: Row) => IsRootRow(p, r), 0);
    SelectNone(p.rows, (r: Row) => IsRunOfRoot(p, r));
    SelectNone(p.rows, (r: Row) => IsActiveRun(p, r));
  }

  lemma UntimedTables(p: Proof)
    requires FiveTables(p.rows)
    ensures TableRows(p, CONVERSATIONS) == [p.rows[1]] && TableRows(p, "users") == [p.rows[2]]
    ensures TableRows(p, "workspace_memberships") == [p.rows[3]] && TableRows(p, "workspaces") == [p.rows[4]]
    ensures TableRows(p, "agent_runtime_receipts") == []
  {
    TablesDiffer();
    OnlyTable(p, 1);
    OnlyTable(p, 2);
    OnlyTable(p, 3);
    OnlyTable(p, 4);
    SelectNone(p.rows, (r: Row) => r.table == "agent_runtime_receipts");
  }

  lemma FirstCharOrder(a: string, b: string)
    requires a != "" && b != "" && a[0] < b[0]
    ensures StrLe(a, b) && a != b
  {
  }

  lemma {:induction false} CommonPrefix(x: string, a: string, b: string)
    requires StrLe(a, b)
    ensures StrLe(x + a, x + b)
  {
    if x == "" {
      assert x + a == a && x + b == b;
    } else {
      CommonPrefix(x[1..], a, b);
      assert (x + a)[1..] == x[1..] + a && (x + b)[1..] == x[1..] + b;
    }
  }

  lemma MembershipsFirst(members: string, spaces: string)
    requires members == "workspace_memberships" && spaces == "workspaces"
    ensures StrLe(members, spaces) && members != spaces
  {
    FirstCharOrder("_memberships", "s");
    CommonPrefix("workspace", "_memberships", "s");
    assert "workspace" + "_memberships" == members && "workspace" + "s" == spaces;
    assert |members| == 21 && |spaces| == 10;
  }

  /** Five tables by their first characters, the last two in order of themselves. */
  predicate InitialsAscend(rows: seq<Row>) {
    && |rows| == 5 && (forall i :: 0 <= i < 5 ==> rows[i].table != "")
    && rows[0].table[0] < rows[1].table[0] < rows[2].table[0] < rows[3].table[0] == rows[4].table[0]
    && StrLe(rows[3].table, rows[4].table) && rows[3].table != rows[4].table
  }

  lemma InitialsOrder(rows: seq<Row>, encode: Encoder)
    requires InitialsAscend(rows)
    ensures StrictlyOrdered(rows, encode)
  {
    forall i, j | 0 <= i < j < |rows| ensures KeyLt(KeyOf(rows[i], encode), KeyOf(rows[j], encode)) {
      if i < 3 { FirstCharOrder(rows[i].table, rows[j].table); }
    }
  }

  lemma Initials(rows: seq<Row>)
    requires FiveTables(rows)
    ensures forall i :: 0 <= i < 5 ==> rows[i].table != ""
    ensures rows[0].table[0] == 'a' && rows[1].table[0] == 'p' && rows[2].table[0] == 'u'
    ensures rows[3].table[0] == 'w' && rows[4].table[0] == 'w' && |rows[0].table| == 19
  {
  }

  lemma TableFacts(rows: seq<Row>)
    requires FiveTables(rows)
    ensures InitialsAscend(rows) && rows[0].table[0] == 'a' && |rows[0].table| == 19
  {
    Initials(rows);
    MembershipsFirst(rows[3].table, rows[4].table);
  }

  lemma UntimedOrder(rows: seq<Row>, encode: Encoder)
    requires FiveTables(rows)
    ensures StrictlyOrdered(rows, encode)
  {
    TableFacts(rows);
    InitialsOrder(rows, encode);
  }

  lemma UntimedAllowed(rows: seq<Row>, digest: Val)
    requires UntimedPreimage(rows, digest)
    ensures forall r <- rows :: r.table in ALLOWED_TABLES && KeyColumnsAgree(r)
  {
  }

  lemma Later(a: Columns, b: Columns, k: Column)
    ensures Get(a + b, k) == if k in b then b[k] else Get(a, k)
    ensures k in a + b <==> k in a || k in b
  {
  }

  /** A column stands in one of the three parts of the root row. */
  lemma RootColumn(digest: Val, k: Column)
    ensures Get(RootColumns(digest), k)
            == if k in RootClaims(digest) then RootClaims(digest)[k]
               else if k in RootEnd(digest) then RootEnd(digest)[k]
               else Get(RootPlace(), k)
    ensures k in RootColumns(digest) <==> k in RootPlace() || k in RootEnd(digest) || k in RootClaims(digest)
  {
    Later(RootPlace() + RootEnd(digest), RootClaims(digest), k);
    Later(RootPlace(), RootEnd(digest), k);
  }

  lemma RootPlaceColumns(digest: Val)
    ensures var root := RootColumns(digest);
      Get(root, RootRunId) == Text("root") && Get(root, OwnerPrincipal) == Text("owner")
      && Get(root, WorkspaceId) == Text("space") && Get(root, SessionId) == Text("session")
      && Get(root, TraceId) == Text("trace") && UpdatedAt !in root
  {
    RootColumn(digest, RootRunId);
    RootColumn(digest, UpdatedAt);
    RootScopeColumns(digest);
  }

  lemma RootScopeColumns(digest: Val)
    ensures var root := RootColumns(digest);
      Get(root, OwnerPrincipal) == Text("owner") && Get(root, WorkspaceId) == Text("space")
      && Get(root, SessionId) == Text("session") && Get(root, TraceId) == Text("trace")
  {
    RootColumn(digest, OwnerPrincipal);
    RootColumn(digest, WorkspaceId);
    RootColumn(digest, SessionId);
    RootColumn(digest, TraceId);
  }

  lemma RootEndColumns(digest: Val)
    ensures var root := RootColumns(digest);
      Get(root, Status) == Text("completed") && Get(root, AuthorityStatus) == Text("closed")
      && Get(root, TerminalSequence) == Int(1) && Get(root, TerminalEventDigest) == digest
  {
    RootColumn(digest, Status);
    RootColumn(digest, AuthorityStatus);
    RootColumn(digest, TerminalSequence);
    RootColumn(digest, TerminalEventDigest);
  }

  lemma RootClaimColumns(digest: Val)
    ensures var root := RootColumns(digest);
      Get(root, TerminalIngressSequence) == Int(0) && Get(root, TerminalIngressDigest) == digest
      && Get(root, UnknownClaimCount) == Int(0) && Get(root, UnknownClaimsDigest) == digest
  {
    RootColumn(digest, TerminalIngressSequence);
    RootColumn(digest, TerminalIngressDigest);
    RootColumn(digest, UnknownClaimCount);
    RootColumn(digest, UnknownClaimsDigest);
  }

  lemma DeclarationSays(root: Columns)
    ensures Declaration(root).Keys == ROOT_MUTABLE
    ensures forall k <- ROOT_MUTABLE :: Get(Declaration(root), k) == Get(root, k)
  {
  }

  lemma UntimedDelta(p: Proof, digest: Val)
    requires IsUntimed(p, digest)
    ensures RootDeltaAgrees(p, RootColumns(digest)) && TerminalFactsOk(p)
  {
    DeclarationSays(RootColumns(digest));
    RootPlaceColumns(digest);
    RootEndColumns(digest);
    RootClaimColumns(digest);
  }

  lemma UntimedDeclared(p: Proof, digest: Val)
    requires IsUntimed(p, digest)
    ensures Declared(p) && TerminalFactsOk(p) && RootRows(p) == [p.rows[0]]
  {
    RootPlaceColumns(digest);
    UntimedRoot(p);
    UntimedDelta(p, digest);
    assert ById(p.delta.runs) == map[];
  }

  lemma UntimedProduct(p: Proof)
    requires p.scope == ROOT_SCOPE
    ensures ProductAgrees(p, Conversation(), Workspace(), User(), Member())
  {
    NamesDiffer();
  }

  lemma NamesDiffer()
    ensures |"user_id"| == 7 && |"reset_id"| == 8 && |"kind"| == 4 && |"owner_user_id"| == 13 && |"role"| == 4
    ensures "kind"[0] == 'k' && "role"[0] == 'r' && |"username"| == 8 && |"runtime_session_id"| == 18
    ensures "reset_id"[0] == 'r' && "username"[0] == 'u'
  {
  }

  lemma UntimedSettlement(p: Proof, digest: Val)
    requires IsUntimed(p, digest)
    ensures SettlementAgrees(p, RootColumns(digest))
  {
    UntimedTables(p);
    RootEndColumns(digest);
    assert StoredReceipts(p, RootColumns(digest)) == [];
  }

  lemma ChildTables()
    ensures forall t <- CHILD_TABLES :: |t| != 19 && |t| > 0 && t[0] == 'a'
  {
  }

  lemma NoChildRows(rows: seq<Row>, children: set<string>)
    requires InitialsAscend(rows) && rows[0].table[0] == 'a' && |rows[0].table| == 19
    requires forall t <- children :: |t| != 19 && |t| > 0 && t[0] == 'a'
    ensures forall r <- rows :: r.table !in children
  {
  }

  lemma UntimedRootRun(p: Proof, digest: Val)
    requires IsUntimed(p, digest)
    ensures RootRunAgrees(p)
  {
    RootPlaceColumns(digest);
    UntimedRoot(p);
    ChildTables();
    TableFacts(p.rows);
    NoChildRows(p.rows, CHILD_TABLES);
  }

  /** Such a proof is accepted, whatever the encoding of keys, and its poststate is not its preimage. */
  lemma UntimedCleanupWrites(p: Proof, digest: Val, encode: Encoder)
    requires IsUntimed(p, digest) && p.expected == Sha256(PostRows(p))
    ensures Accepts(p, encode) && TerminalCleanup(p) && PostRows(p) != p.rows
  {
    UntimedOrder(p.rows, encode);
    UntimedAllowed(p.rows, digest);
    UntimedDeclared(p, digest);
    UntimedTables(p);
    UntimedProduct(p);
    UntimedSettlement(p, digest);
    UntimedRootRun(p, digest);
    RootPlaceColumns(digest);
    CleanupChangesNothing(p);
  }

  /** And there is one. */
  lemma UntimedProofExists() returns (p: Proof, digest: Val)
    ensures IsUntimed(p, digest) && p.expected == Sha256(PostRows(p))
  {
    digest := Text(seq(64, i => '0'));
    var rows := [Row(TURNS, map[], RootColumns(digest)), Row(CONVERSATIONS, map[], Conversation()),
                 Row("users", map[], User()), Row("workspace_memberships", map[], Member()),
                 Row("workspaces", map[], Workspace())];
    var declared := Declaration(RootColumns(digest));
    var delta := Delta("", Text("root"), declared, declared, []);
    var draft := Proof(CompletedCleanup, ROOT_SCOPE, rows, delta, Int(0), digest, Int(0), digest,
                       TerminalReceipt(Text("root"), Int(1), digest), "",
                       Sha256(AUDIT_PREFIX + ""), Sha256(rows), Sha256([]));
    p := draft.(expected := Sha256(PostRows(draft)));
    assert PostRows(p) == PostRows(draft);
  }
}
