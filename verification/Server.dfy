/** One SQL Server session as the transaction layer sees it through the ODBC driver.

    Rows are represented by the history of writes that produced them, so two tables with the same
    `Rows` have the same contents whatever the writes do.  The premises about the server are exactly
    the branches of `Executable`, `Apply`, `Answer` and `Execute`; the driver's own choice is the `Reply`
    that accompanies every command. */
module Server {

  type Rows = seq<string>

  datatype Command =
    | Primer                      // SET XACT_ABORT ON
    | Catalog                     // the key lookup a write context runs once
    | TranCount                   // SELECT @@TRANCOUNT
    | XactState                   // SELECT XACT_STATE()
    | BeginTran                   // BEGIN TRANSACTION
    | SaveTran(name: string)      // SAVE TRANSACTION [name]
    | RollbackTran(name: string)  // ROLLBACK TRANSACTION [name]
    | Dml(write: string)
    | EndTran(commit: bool)       // SQLEndTran

  /** What the driver reports.  `took` says whether the server had carried the command out before the
      failure surfaced; the client never sees it. */
  datatype Reply = Succeeded | Failed(sqlstate: string, took: bool)

  datatype ErrorClass = DriverNotFound | Connect | Transport | Timeout | Cancelled | Exec | Internal

  /** classify_state: the error class of an SQLSTATE. */
  function Classify(st: string): (cls: ErrorClass)
    ensures cls == Transport <==> "08" <= st
    ensures cls == Timeout <==> st in {"HYT00", "HYT01"}
    ensures cls == Internal <==> st == ""
    ensures cls == Cancelled <==> st == "HY008"
    ensures cls == DriverNotFound <==> st in {"IM002", "IM003"}
    ensures cls == Connect <==> "IM0" <= st && st !in {"IM002", "IM003"}
  {
    assert "08" <= st ==> st[0] == '0';
    assert "HYT00"[0] == 'H' && "HYT01"[0] == 'H' && "HY008"[0] == 'H' && "IM0"[0] == 'I';
    assert "HY008"[2] == '0' && "IM0" <= "IM002" && "IM0" <= "IM003" && ("IM0" <= st ==> st[0] == 'I');
    if st == "" then Internal
    else if "IM0" <= st then
      if st == "IM002" || st == "IM003" then DriverNotFound else Connect
    else if st == "HY008" then Cancelled
    else if st == "HYT00" || st == "HYT01" then Timeout
    else if "08" <= st then Transport
    else ErrorClass.Exec
  }

  datatype Mark = Mark(name: string, rows: Rows)

  datatype Session = Session(
    committed: Rows,    // durable rows
    alive: bool,        // the connection is up
    nesting: nat,       // @@TRANCOUNT
    working: Rows,      // the rows the session sees
    marks: seq<Mark>,   // SAVE TRANSACTION marks, oldest first; names may repeat
    doomed: bool        // XACT_STATE() = -1
  )

  /** Open on the server and still committable. */
  predicate Open(s: Session) {
    s.alive && s.nesting > 0 && !s.doomed
  }

  /** Losing or closing a connection rolls back whatever is open on it. */
  function Close(s: Session): (r: Session) {
    s.(alive := false, nesting := 0, working := s.committed, marks := [], doomed := false)
  }

  function Fresh(s: Session): (r: Session) {
    Close(s).(alive := true)
  }

  /** The latest mark of a name, or -1. */
  function Latest(marks: seq<Mark>, name: string): (i: int)
    ensures -1 <= i < |marks|
    ensures i >= 0 ==> marks[i].name == name
    ensures forall k :: i < k < |marks| ==> marks[k].name != name
  {
    if marks == [] then -1
    else if marks[|marks| - 1].name == name then |marks| - 1
    else Latest(marks[..|marks| - 1], name)
  }

  predicate Executable(s: Session, c: Command) {
    s.alive &&
    match c
    case SaveTran(_) => s.nesting > 0 && !s.doomed
    case RollbackTran(name) => s.nesting > 0 && !s.doomed && Latest(s.marks, name) >= 0
    case Dml(_) => !s.doomed
    case EndTran(commit) => commit ==> !s.doomed
    case _ => true
  }

  /** The effect of a command the server carries out. */
  function Apply(s: Session, c: Command): (r: Session)
    requires Executable(s, c)
  {
    match c
    case BeginTran => s.(nesting := s.nesting + 1)
    case SaveTran(name) => s.(marks := s.marks + [Mark(name, s.working)])
    case RollbackTran(name) =>
      var i := Latest(s.marks, name);
      s.(working := s.marks[i].rows, marks := s.marks[..i + 1])
    case Dml(w) =>
      // without an open transaction the statement commits on its own
      if s.nesting == 0 then s.(committed := s.committed + [w], working := s.working + [w])
      else s.(working := s.working + [w])
    case EndTran(commit) =>
      if s.nesting == 0 then s
      else if !commit then Close(s).(alive := true)
      // COMMIT closes one nesting level; only the outermost one makes the rows durable
      else if s.nesting > 1 then s.(nesting := s.nesting - 1)
      else s.(committed := s.working, nesting := 0, marks := [])
    case _ => s
  }

  /** The reply the client gets: a command the server cannot execute does not succeed, and a dead
      connection reports class 08.  Every other failure leaves open whether the command was carried out. */
  function Answer(s: Session, c: Command, r: Reply): (a: Reply)
    ensures a.Succeeded? ==> Executable(s, c)
    ensures a.Failed? && a.took ==> Executable(s, c)
    ensures !s.alive ==> a.Failed? && Classify(a.sqlstate) == Transport
    ensures Executable(s, c) && r.Succeeded? ==> a == r
  {
    if !s.alive then Failed("08S01", false)
    else if !Executable(s, c) then
      Failed(if r.Failed? then r.sqlstate else "25000", false)
    else r
  }

  /** The session after a command and its (already settled) reply.  A failing statement dooms the open
      transaction (XACT_ABORT ON); a class 08 failure loses the connection. */
  function Execute(s: Session, c: Command, a: Reply): (r: Session)
    requires a.Succeeded? || a.took ==> Executable(s, c)
  {
    var s1 := if a.Succeeded? || a.took then Apply(s, c) else s;
    if a.Succeeded? then s1
    else if Classify(a.sqlstate) == Transport then Close(s1)
    else if c.EndTran? || s.nesting == 0 then s1
    else s1.(doomed := true)
  }
}
