/** The withdrawal request flow of withdraw.py: `/withdraw` checks the
    conditions and remembers the balance; the next message, a leader card
    name, logs a pending withdrawal of that balance. */
module Withdraw {
  import opened Common
  import opened Store

  /** The smallest balance that can be withdrawn. */
  const MinimumWithdrawal: real := 1.0

  datatype WithdrawError = BelowMinimum | AlreadyPending

  /** `check_withdraw_conditions`: the minimum is checked before the pending
      withdrawal; no error means both hold. */
  function CheckWithdrawConditions(balance: real, hasPending: bool): (r: Option<WithdrawError>)
    ensures r.None? <==> balance >= MinimumWithdrawal && !hasPending
    ensures balance < MinimumWithdrawal ==> r == Some(BelowMinimum)
    ensures r == Some(AlreadyPending) <==> balance >= MinimumWithdrawal && hasPending
  {
    if balance < MinimumWithdrawal then Some(BelowMinimum)
    else if hasPending then Some(AlreadyPending)
    else None
  }

  /** A logged withdrawal blocks every further request of its user until it is approved. */
  lemma LoggedWithdrawalBlocksNext(ws: seq<Withdrawal>, u: UserId, amount: real, card: string, balance: real)
    ensures HasPendingWithdrawal(ws + [Withdrawal(u, amount, card, Pending)], u)
    ensures CheckWithdrawConditions(balance, HasPendingWithdrawal(ws + [Withdrawal(u, amount, card, Pending)], u)).Some?
  {
    assert (ws + [Withdrawal(u, amount, card, Pending)])[|ws|] == Withdrawal(u, amount, card, Pending);
  }

  /** An entry of `user_withdraw_state`. */
  datatype WithdrawState = WithdrawState(awaitingCard: bool, balance: real)

  datatype WithdrawReply = Refused(error: WithdrawError) | AskForCard

  datatype CardReply = NotHandled | WrongCard | Submitted(amount: real, card: string)

  class WithdrawFlow {
    /** `user_withdraw_state` */
    var userWithdrawState: map<UserId, WithdrawState>

    /** Every remembered request waits for a card and holds a balance that
        passed the minimum. */
    ghost predicate Valid()
      reads this
    {
      forall u :: u in userWithdrawState ==>
        userWithdrawState[u].awaitingCard && userWithdrawState[u].balance >= MinimumWithdrawal
    }

    constructor ()
      ensures Valid() && userWithdrawState == map[]
    {
      userWithdrawState := map[];
    }

    /** `handle_withdraw`: the user's balance is checked and, when the
        conditions hold, remembered while the card name is awaited. */
    method HandleWithdraw(db: Db, user: UserId) returns (r: WithdrawReply)
      requires Valid()
      modifies this`userWithdrawState
      ensures Valid()
      ensures var balance := UserOrDefault(db.users, user).balance;
        match CheckWithdrawConditions(balance, HasPendingWithdrawal(db.withdrawals, user))
        case Some(e) => r == Refused(e) && userWithdrawState == old(userWithdrawState)
        case None => r == AskForCard && userWithdrawState == old(userWithdrawState)[user := WithdrawState(true, balance)]
    {
      var balance := UserOrDefault(db.users, user).balance;
      var error := CheckWithdrawConditions(balance, HasPendingWithdrawal(db.withdrawals, user));
      if error.Some? {
        return Refused(error.value);
      }
      userWithdrawState := userWithdrawState[user := WithdrawState(true, balance)];
      r := AskForCard;
    }

    /** `handle_leader_card_input`, with its message filter: only a user
        awaiting a card is handled. A card the store does not know keeps the
        request waiting; a known one logs a pending withdrawal of the
        remembered balance and forgets the request. */
    method HandleLeaderCardInput(db: Db, user: UserId, text: string) returns (r: CardReply)
      requires Valid()
      modifies this`userWithdrawState, db`withdrawals
      ensures Valid()
      ensures !(user in old(userWithdrawState) && old(userWithdrawState)[user].awaitingCard) ==>
        r == NotHandled && userWithdrawState == old(userWithdrawState) && db.withdrawals == old(db.withdrawals)
      ensures user in old(userWithdrawState) && old(userWithdrawState)[user].awaitingCard && Strip(text) !in db.leaderCards ==>
        r == WrongCard && userWithdrawState == old(userWithdrawState) && db.withdrawals == old(db.withdrawals)
      ensures user in old(userWithdrawState) && old(userWithdrawState)[user].awaitingCard && Strip(text) in db.leaderCards ==>
        var amount := old(userWithdrawState)[user].balance;
        && r == Submitted(amount, Strip(text))
        && amount >= MinimumWithdrawal
        && db.withdrawals == old(db.withdrawals) + [Withdrawal(user, amount, Strip(text), Pending)]
        && userWithdrawState == old(userWithdrawState) - {user}
    {
      if !(user in userWithdrawState && userWithdrawState[user].awaitingCard) {
        return NotHandled;
      }
      var card := Strip(text);
      if card !in db.leaderCards {
        return WrongCard;
      }
      var amount := userWithdrawState[user].balance;
      db.LogWithdrawal(user, amount, card);
      userWithdrawState := userWithdrawState - {user};
      r := Submitted(amount, card);
    }
  }
}
