/**
 * The in-memory statements repository: an append-only list of statements in a
 * field, a lookup by statement id and owner, and a user's balance computed
 * from the list.
 */
module InMemory {
  import opened Wrappers
  import opened Ledger
  import StatementsRepository

  class InMemoryStatementsRepository {
    var statements: seq<Statement>

    /** Statement ids are unique: the entity draws a fresh id for every record. */
    ghost predicate Valid()
      reads this
    {
      UniqueIds(statements)
    }

    constructor ()
      ensures Valid() && statements == []
    {
      statements := [];
    }

    /**
     * Builds the record from the request fields and appends it; `id` and the
     * timestamps are the values the entity assigns.
     */
    method Create(data: CreateStatementDTO, id: Id, created_at: int, updated_at: int) returns (statement: Statement)
      requires Valid()
      requires forall i :: 0 <= i < |statements| ==> statements[i].id != id
      modifies this
      ensures Valid()
      ensures statements == old(statements) + [statement]
      ensures statement == NewStatement(data, id, created_at, updated_at)
    {
      statement := NewStatement(data, id, created_at, updated_at);
      statements := statements + [statement];
    }

    /** The first stored record whose id is `statement_id` and whose owner is `user_id`. */
    function FindStatementOperation(statement_id: Id, user_id: Id): (r: Option<Statement>)
      reads this
      ensures r.None? <==>
        forall i :: 0 <= i < |statements| ==> !(statements[i].id == statement_id && statements[i].user_id == user_id)
      ensures r.Some? ==>
        exists i :: 0 <= i < |statements| && statements[i] == r.value
          && r.value.id == statement_id && r.value.user_id == user_id
          && forall j :: 0 <= j < i ==> !(statements[j].id == statement_id && statements[j].user_id == user_id)
    {
      match FirstIndex(statements, (s: Statement) => s.id == statement_id && s.user_id == user_id)
      case None => None
      case Some(k) => Some(statements[k])
    }

    /**
     * The balance of `user_id`: the owned records' signed amounts minus the
     * amounts of the records it sent; with `with_statement`, also both lists.
     */
    function GetUserBalance(user_id: Id, with_statement: bool): (r: StatementsRepository.BalanceResult)
      reads this
      ensures r.balance == BalanceOf(statements, user_id)
      ensures r.WithStatement? <==> with_statement
      ensures r.WithStatement? ==>
        r.statement == Owned(statements, user_id) && r.statementSends == Sent(statements, user_id)
    {
      StatementsRepository.QueriedBalanceIsLedgerBalance(statements, user_id, with_statement);
      StatementsRepository.GetUserBalance(Owned(statements, user_id), Sent(statements, user_id), with_statement)
    }
  }

  /**
   * Both repositories answer a lookup alike: the database's primary-key lookup
   * with an owner check returns what the in-memory scan returns.
   */
  lemma LookupsAgree(repo: InMemoryStatementsRepository, statement_id: Id, user_id: Id)
    requires repo.Valid()
    ensures StatementsRepository.FindStatementOperation(repo.statements, statement_id, user_id)
         == repo.FindStatementOperation(statement_id, user_id)
  {
  }

  /**
   * Records are found only by their owner: once a record with this id exists and
   * is owned by someone else, the lookup for `user_id` fails, even when
   * `user_id` sent it.
   */
  lemma OnlyOwnerFinds(repo: InMemoryStatementsRepository, k: nat, user_id: Id)
    requires repo.Valid() && k < |repo.statements|
    ensures repo.FindStatementOperation(repo.statements[k].id, user_id)
         == if repo.statements[k].user_id == user_id then Some(repo.statements[k]) else None
  {
  }

  /** A user deposits 100 and reads 100; after withdrawing 20 the balance reads 80. */
  method DepositThenWithdraw(user_id: Id) returns (afterDeposit: int, afterWithdraw: int)
    ensures afterDeposit == 100 && afterWithdraw == 80
  {
    var repo := new InMemoryStatementsRepository();
    var deposit := repo.Create(CreateStatementDTO(user_id, 100, "Sample description", Deposit, None), "d", 0, 0);
    OwnerOnlyEffect([], deposit);
    afterDeposit := repo.GetUserBalance(user_id, false).balance;
    var withdraw := repo.Create(CreateStatementDTO(user_id, 20, "Sample description", Withdraw, None), "w", 0, 0);
    OwnerOnlyEffect([deposit], withdraw);
    afterWithdraw := repo.GetUserBalance(user_id, false).balance;
  }

  /** A deposits 100, then transfers 10 to B: A reads 90 and B reads 10. */
  method DepositThenTransfer(a: Id, b: Id) returns (balanceA: int, balanceB: int)
    requires a != b
    ensures balanceA == 90 && balanceB == 10
  {
    var repo := new InMemoryStatementsRepository();
    var deposit := repo.Create(CreateStatementDTO(a, 100, "deposit", Deposit, None), "d", 0, 0);
    OwnerOnlyEffect([], deposit);
    var transfer := repo.Create(CreateStatementDTO(b, 10, "transfer", Transfer, Some(a)), "t", 0, 0);
    TransferMovesAmount([deposit], transfer, a);
    balanceA := repo.GetUserBalance(a, false).balance;
    balanceB := repo.GetUserBalance(b, false).balance;
  }
}
