/**
 * The database-backed statements repository, with its queries taken as given:
 * the balance reduction applied to the two query results, the shape of the
 * result, and the lookup of one statement by primary key and owner.
 */
module StatementsRepository {
  import opened Wrappers
  import opened Ledger

  /** `{ balance }`, or `{ statement, statementSends, balance }` when the history was asked for. */
  datatype BalanceResult =
    | BalanceOnly(balance: int)
    | WithStatement(statement: seq<Statement>, statementSends: seq<Statement>, balance: int)

  /** The first `reduce`, a left fold from `acc`: deposits and transfers add, anything else subtracts. */
  function ReduceOwned(acc: int, ss: seq<Statement>): (r: int)
    ensures r == acc + OwnedTotal(ss)
    decreases ss
  {
    if ss == [] then acc
    else
      var next := if ss[0].kind == Deposit || ss[0].kind == Transfer
                  then acc + ss[0].amount else acc - ss[0].amount;
      OwnedTotalConcat([ss[0]], ss[1..]);
      assert [ss[0]] + ss[1..] == ss;
      ReduceOwned(next, ss[1..])
  }

  /** The second `reduce`, a left fold from `acc` adding every amount. */
  function ReduceSends(acc: int, ss: seq<Statement>): (r: int)
    ensures r == acc + SentTotal(ss)
    decreases ss
  {
    if ss == [] then acc else ReduceSends(acc + ss[0].amount, ss[1..])
  }

  /**
   * The reduction inside `getUserBalance`, given the owned-side query result
   * `statement` and the sender-side query result `statementSends`.
   */
  function GetUserBalance(statement: seq<Statement>, statementSends: seq<Statement>, with_statement: bool)
    : (r: BalanceResult)
    ensures r.balance == OwnedTotal(statement) - SentTotal(statementSends)
    ensures r.WithStatement? <==> with_statement
    ensures r.WithStatement? ==> r.statement == statement && r.statementSends == statementSends
  {
    var balance := ReduceOwned(0, statement);
    var transferSendsBalance := ReduceSends(0, statementSends);
    if with_statement then WithStatement(statement, statementSends, balance - transferSendsBalance)
    else BalanceOnly(balance - transferSendsBalance)
  }

  /**
   * Applied to the two queries of the table (`where user_id` and `where sender_id`),
   * the reduction gives the reference balance, whatever `with_statement` is.
   */
  lemma QueriedBalanceIsLedgerBalance(table: seq<Statement>, user_id: Id, with_statement: bool)
    ensures GetUserBalance(Owned(table, user_id), Sent(table, user_id), with_statement).balance
         == BalanceOf(table, user_id)
  {
    BalanceDecomposes(table, user_id);
  }

  /**
   * `findOne(statement_id, { where: { user_id } })`: the row whose primary key is
   * `statement_id`, provided its owner is `user_id`.
   */
  function FindStatementOperation(table: seq<Statement>, statement_id: Id, user_id: Id): (r: Option<Statement>)
    requires UniqueIds(table)
    ensures r.Some? <==> exists i :: 0 <= i < |table| && table[i].id == statement_id && table[i].user_id == user_id
    ensures r.Some? ==> r.value in table && r.value.id == statement_id && r.value.user_id == user_id
  {
    match FirstIndex(table, (s: Statement) => s.id == statement_id)
    case None => None
    case Some(k) => if table[k].user_id == user_id then Some(table[k]) else None
  }
}
