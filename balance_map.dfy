/**
 * The balance mapper: projects the owned and sent statement lists into the
 * response entries and deletes `password` from every embedded counterparty
 * user, in place on the loaded user objects.
 */
module BalanceMap {
  import opened Wrappers
  import opened Ledger

  /** An owned record as returned: it names its sender (if any), not its owner. */
  datatype ReceivedEntry = ReceivedEntry(
    id: Id,
    amount: int,
    description: string,
    kind: OperationType,
    sender_id: Option<Id>,
    sender: Option<User>,
    created_at: int,
    updated_at: int)

  /** A sent record as returned: it names its receiver. */
  datatype SentEntry = SentEntry(
    id: Id,
    amount: int,
    description: string,
    kind: OperationType,
    user_id: Id,
    user: Option<User>,
    created_at: int,
    updated_at: int)

  datatype BalanceDTO = BalanceDTO(statement: seq<ReceivedEntry>, statementSends: seq<SentEntry>, balance: int)

  /** The sender users loaded with the owned records. */
  ghost function Senders(statement: seq<Statement>): set<User>
  {
    set s | s in statement && s.sender.Some? :: s.sender.value
  }

  /** The receiver users loaded with the sent records. */
  ghost function Receivers(statementSends: seq<Statement>): set<User>
  {
    set s | s in statementSends && s.user.Some? :: s.user.value
  }

  function AsReceived(s: Statement): ReceivedEntry
  {
    ReceivedEntry(s.id, s.amount, s.description, s.kind, s.sender_id, s.sender, s.created_at, s.updated_at)
  }

  function AsSent(s: Statement): SentEntry
  {
    SentEntry(s.id, s.amount, s.description, s.kind, s.user_id, s.user, s.created_at, s.updated_at)
  }

  method ToDTO(statement: seq<Statement>, statementSends: seq<Statement>, balance: int) returns (dto: BalanceDTO)
    modifies Senders(statement)`password, Receivers(statementSends)`password
    ensures dto.balance == balance
    ensures |dto.statement| == |statement|
    ensures forall i :: 0 <= i < |statement| ==>
      var e, s := dto.statement[i], statement[i];
      e.id == s.id && e.amount == s.amount && e.description == s.description && e.kind == s.kind
      && e.sender_id == s.sender_id && e.sender == s.sender
      && e.created_at == s.created_at && e.updated_at == s.updated_at
    ensures |dto.statementSends| == |statementSends|
    ensures forall i :: 0 <= i < |statementSends| ==>
      var e, s := dto.statementSends[i], statementSends[i];
      e.id == s.id && e.amount == s.amount && e.description == s.description && e.kind == s.kind
      && e.user_id == s.user_id && e.user == s.user
      && e.created_at == s.created_at && e.updated_at == s.updated_at
    ensures forall u :: u in Senders(statement) ==> u.password.None?
    ensures forall u :: u in Receivers(statementSends) ==> u.password.None?
  {
    var parsedStatement: seq<ReceivedEntry> := [];
    var i := 0;
    while i < |statement|
      invariant 0 <= i <= |statement|
      invariant |parsedStatement| == i
      invariant forall k :: 0 <= k < i ==> parsedStatement[k] == AsReceived(statement[k])
      invariant forall k :: 0 <= k < i && statement[k].sender.Some? ==> statement[k].sender.value.password.None?
    {
      var s := statement[i];
      if s.sender.Some? {
        s.sender.value.password := None;
      }
      parsedStatement := parsedStatement + [AsReceived(s)];
      i := i + 1;
    }

    var parsedStatementSends: seq<SentEntry> := [];
    var j := 0;
    while j < |statementSends|
      invariant 0 <= j <= |statementSends|
      invariant |parsedStatementSends| == j
      invariant forall k :: 0 <= k < j ==> parsedStatementSends[k] == AsSent(statementSends[k])
      invariant forall k :: 0 <= k < j && statementSends[k].user.Some? ==> statementSends[k].user.value.password.None?
      invariant forall u :: u in Senders(statement) ==> u.password.None?
    {
      var s := statementSends[j];
      if s.user.Some? {
        s.user.value.password := None;
      }
      parsedStatementSends := parsedStatementSends + [AsSent(s)];
      j := j + 1;
    }

    dto := BalanceDTO(parsedStatement, parsedStatementSends, balance);
  }
}
