/**
 * The statement ledger shared by both repositories: the Statement entity, the
 * fields a create request carries, the two queries a balance is computed from
 * (statements a user owns, statements a user sent) and a reference definition
 * of a user's balance as the sum of each statement's effect on that user.
 */
module Ledger {
  import opened Wrappers

  type Id = string

  /** The `statements.type` enum column: deposit, withdraw or transfer. */
  datatype OperationType = Deposit | Withdraw | Transfer

  /** A user row as loaded through a relation; the mapper deletes `password` in place. */
  class User {
    var id: Id
    var name: string
    var email: string
    var password: Option<string>
  }

  /**
   * One ledger record. `kind` is the source's `type` column (a reserved word in
   * Dafny). `sender` and `user` are the relations a query may load; a record
   * built by `create` carries neither.
   */
  datatype Statement = Statement(
    id: Id,
    user_id: Id,
    amount: int,
    description: string,
    kind: OperationType,
    sender_id: Option<Id>,
    created_at: int,
    updated_at: int,
    sender: Option<User>,
    user: Option<User>)

  /** The fields a create request carries. */
  datatype CreateStatementDTO = CreateStatementDTO(
    user_id: Id,
    amount: int,
    description: string,
    kind: OperationType,
    sender_id: Option<Id>)

  /** The create-request fields of a stored statement. */
  function CreateFields(s: Statement): CreateStatementDTO
  {
    CreateStatementDTO(s.user_id, s.amount, s.description, s.kind, s.sender_id)
  }

  /**
   * The record `create` builds: exactly the five request fields, plus the id and
   * timestamps the entity assigns (given here as parameters), no relations.
   */
  function NewStatement(data: CreateStatementDTO, id: Id, created_at: int, updated_at: int): (s: Statement)
    ensures CreateFields(s) == data
    ensures s.id == id && s.created_at == created_at && s.updated_at == updated_at
    ensures s.sender.None? && s.user.None?
  {
    Statement(id, data.user_id, data.amount, data.description, data.kind, data.sender_id,
              created_at, updated_at, None, None)
  }

  /** No two records share an id (the table's primary key). */
  ghost predicate UniqueIds(ledger: seq<Statement>)
  {
    forall i, j :: 0 <= i < j < |ledger| ==> ledger[i].id != ledger[j].id
  }

  /** What an owned record adds to its owner's balance: deposits and transfers add, anything else subtracts. */
  function Signed(s: Statement): int
  {
    if s.kind == Deposit || s.kind == Transfer then s.amount else -s.amount
  }

  /** The change one record makes to user `u`'s balance, on the owner side and on the sender side. */
  function Effect(s: Statement, u: Id): int
  {
    (if s.user_id == u then Signed(s) else 0) - (if s.sender_id == Some(u) then s.amount else 0)
  }

  /** Reference balance: the sum of every record's effect on `u`. */
  function BalanceOf(ledger: seq<Statement>, u: Id): int
  {
    if ledger == [] then 0 else Effect(ledger[0], u) + BalanceOf(ledger[1..], u)
  }

  /** The records `u` owns, in insertion order (`filter` on `user_id`). */
  function Owned(ledger: seq<Statement>, u: Id): (r: seq<Statement>)
    ensures |r| <= |ledger|
    ensures forall i :: 0 <= i < |r| ==> r[i] in ledger && r[i].user_id == u
    ensures forall i :: 0 <= i < |ledger| && ledger[i].user_id == u ==> ledger[i] in r
  {
    if ledger == [] then []
    else (if ledger[0].user_id == u then [ledger[0]] else []) + Owned(ledger[1..], u)
  }

  /** The records `u` sent, in insertion order (`filter` on `sender_id`). */
  function Sent(ledger: seq<Statement>, u: Id): (r: seq<Statement>)
    ensures |r| <= |ledger|
    ensures forall i :: 0 <= i < |r| ==> r[i] in ledger && r[i].sender_id == Some(u)
    ensures forall i :: 0 <= i < |ledger| && ledger[i].sender_id == Some(u) ==> ledger[i] in r
  {
    if ledger == [] then []
    else (if ledger[0].sender_id == Some(u) then [ledger[0]] else []) + Sent(ledger[1..], u)
  }

  /** Sum of the signed amounts of a list of owned records. */
  function OwnedTotal(ss: seq<Statement>): int
  {
    if ss == [] then 0 else Signed(ss[0]) + OwnedTotal(ss[1..])
  }

  /** Sum of the amounts of a list of sent records. */
  function SentTotal(ss: seq<Statement>): int
  {
    if ss == [] then 0 else ss[0].amount + SentTotal(ss[1..])
  }

  /** The first position whose record satisfies `matches`, as `Array.prototype.find` scans. */
  function FirstIndex(ledger: seq<Statement>, matches: Statement -> bool): (r: Option<nat>)
    ensures r.None? <==> forall i :: 0 <= i < |ledger| ==> !matches(ledger[i])
    ensures r.Some? ==> r.value < |ledger| && matches(ledger[r.value])
    ensures r.Some? ==> forall j :: 0 <= j < r.value ==> !matches(ledger[j])
  {
    if ledger == [] then None
    else if matches(ledger[0]) then Some(0)
    else match FirstIndex(ledger[1..], matches)
      case None => None
      case Some(k) => Some(k + 1)
  }

  /** Filtering distributes over concatenation: later records come after earlier ones. */
  lemma {:induction false} OwnedConcat(a: seq<Statement>, b: seq<Statement>, u: Id)
    ensures Owned(a + b, u) == Owned(a, u) + Owned(b, u)
  {
    if a == [] {
      assert a + b == b;
    } else {
      assert (a + b)[1..] == a[1..] + b;
      OwnedConcat(a[1..], b, u);
    }
  }

  lemma {:induction false} SentConcat(a: seq<Statement>, b: seq<Statement>, u: Id)
    ensures Sent(a + b, u) == Sent(a, u) + Sent(b, u)
  {
    if a == [] {
      assert a + b == b;
    } else {
      assert (a + b)[1..] == a[1..] + b;
      SentConcat(a[1..], b, u);
    }
  }

  lemma {:induction false} OwnedTotalConcat(a: seq<Statement>, b: seq<Statement>)
    ensures OwnedTotal(a + b) == OwnedTotal(a) + OwnedTotal(b)
  {
    if a == [] {
      assert a + b == b;
    } else {
      assert (a + b)[1..] == a[1..] + b;
      OwnedTotalConcat(a[1..], b);
    }
  }

  lemma {:induction false} SentTotalConcat(a: seq<Statement>, b: seq<Statement>)
    ensures SentTotal(a + b) == SentTotal(a) + SentTotal(b)
  {
    if a == [] {
      assert a + b == b;
    } else {
      assert (a + b)[1..] == a[1..] + b;
      SentTotalConcat(a[1..], b);
    }
  }

  /**
   * The balance the repositories compute (owned-side signed sum minus sender-side
   * sum) is the sum of each record's effect.
   */
  lemma {:induction false} BalanceDecomposes(ledger: seq<Statement>, u: Id)
    ensures BalanceOf(ledger, u) == OwnedTotal(Owned(ledger, u)) - SentTotal(Sent(ledger, u))
  {
    if ledger != [] {
      var head := ledger[0];
      var ownedHead := if head.user_id == u then [head] else [];
      var sentHead := if head.sender_id == Some(u) then [head] else [];
      BalanceDecomposes(ledger[1..], u);
      OwnedTotalConcat(ownedHead, Owned(ledger[1..], u));
      SentTotalConcat(sentHead, Sent(ledger[1..], u));
      assert OwnedTotal(ownedHead) == (if head.user_id == u then Signed(head) else 0);
      assert SentTotal(sentHead) == (if head.sender_id == Some(u) then head.amount else 0);
    }
  }

  /** Appending a record changes every user's balance by exactly that record's effect. */
  lemma {:induction false} BalanceAppend(ledger: seq<Statement>, s: Statement, u: Id)
    ensures BalanceOf(ledger + [s], u) == BalanceOf(ledger, u) + Effect(s, u)
  {
    if ledger == [] {
      assert ledger + [s] == [s];
    } else {
      assert (ledger + [s])[1..] == ledger[1..] + [s];
      BalanceAppend(ledger[1..], s, u);
    }
  }

  /**
   * A transfer of `a` from `sender` to a different receiver raises the receiver's
   * balance by `a`, lowers the sender's by `a` and leaves every other user's alone.
   */
  lemma TransferMovesAmount(ledger: seq<Statement>, s: Statement, sender: Id)
    requires s.kind == Transfer && s.sender_id == Some(sender) && s.user_id != sender
    ensures BalanceOf(ledger + [s], s.user_id) == BalanceOf(ledger, s.user_id) + s.amount
    ensures BalanceOf(ledger + [s], sender) == BalanceOf(ledger, sender) - s.amount
    ensures forall v :: v != s.user_id && v != sender ==> BalanceOf(ledger + [s], v) == BalanceOf(ledger, v)
  {
    BalanceAppend(ledger, s, s.user_id);
    BalanceAppend(ledger, s, sender);
    forall v | v != s.user_id && v != sender
      ensures BalanceOf(ledger + [s], v) == BalanceOf(ledger, v)
    {
      BalanceAppend(ledger, s, v);
    }
  }

  /**
   * A record without a sender (a deposit or a withdraw) changes only its owner's
   * balance: up by the amount for a deposit, down by it otherwise.
   */
  lemma OwnerOnlyEffect(ledger: seq<Statement>, s: Statement)
    requires s.sender_id.None?
    ensures BalanceOf(ledger + [s], s.user_id)
         == BalanceOf(ledger, s.user_id) + (if s.kind == Withdraw then -s.amount else s.amount)
    ensures forall v :: v != s.user_id ==> BalanceOf(ledger + [s], v) == BalanceOf(ledger, v)
  {
    BalanceAppend(ledger, s, s.user_id);
    forall v | v != s.user_id
      ensures BalanceOf(ledger + [s], v) == BalanceOf(ledger, v)
    {
      BalanceAppend(ledger, s, v);
    }
  }
}
