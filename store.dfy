/** The bot's persistent store (the `db` module, whose code is not part of this
    model), reduced to the records and the operations the core calls. Records
    are values; the store is an object whose tables the operations update. */
module Store {
  import opened Common

  /** A row of the country table. A missing column reads as the default that
      the callers pass to `dict.get`. */
  datatype Country = Country(capacity: Option<int>, price: Option<real>, claimTime: Option<int>) {
    /** `country.get("capacity", 0)` */
    function Capacity(): int { capacity.GetOr(0) }
    /** `country.get("price", 0.1)` */
    function Price(): real { price.GetOr(0.1) }
    /** `country.get("claim_time", 600)`, in seconds */
    function ClaimTime(): int { claimTime.GetOr(600) }
  }

  /** A user record; `None` in an optional column is the absent key. */
  datatype User = User(
    balance: real,
    sentAccounts: int,
    pendingPhone: Option<Phone>,
    otpMsgId: Option<int>,
    countryCode: Option<string>)

  /** What `get_user(id) or {}` reads as when the user has no record yet. */
  const NewUser := User(0.0, 0, None, None, None)

  function UserOrDefault(users: map<UserId, User>, u: UserId): (r: User) {
    if u in users then users[u] else NewUser
  }

  /** The fields of one `update_user(id, {...})` call: `None` leaves the
      column alone, `Some(v)` writes `v`. */
  datatype UserPatch = UserPatch(
    balance: Option<real>,
    sentAccounts: Option<int>,
    pendingPhone: Option<Option<Phone>>,
    otpMsgId: Option<Option<int>>,
    countryCode: Option<Option<string>>)

  const EmptyPatch := UserPatch(None, None, None, None, None)

  function ApplyPatch(user: User, p: UserPatch): (r: User)
    ensures p.balance.Some? ==> r.balance == p.balance.value
    ensures p.balance.None? ==> r.balance == user.balance
    ensures p.sentAccounts.Some? ==> r.sentAccounts == p.sentAccounts.value
    ensures p.sentAccounts.None? ==> r.sentAccounts == user.sentAccounts
    ensures p.pendingPhone.Some? ==> r.pendingPhone == p.pendingPhone.value
    ensures p.pendingPhone.None? ==> r.pendingPhone == user.pendingPhone
    ensures p.otpMsgId.Some? ==> r.otpMsgId == p.otpMsgId.value
    ensures p.otpMsgId.None? ==> r.otpMsgId == user.otpMsgId
    ensures p.countryCode.Some? ==> r.countryCode == p.countryCode.value
    ensures p.countryCode.None? ==> r.countryCode == user.countryCode
  {
    User(
      p.balance.GetOr(user.balance),
      p.sentAccounts.GetOr(user.sentAccounts),
      p.pendingPhone.GetOr(user.pendingPhone),
      p.otpMsgId.GetOr(user.otpMsgId),
      p.countryCode.GetOr(user.countryCode))
  }

  /** The users table after a successful `update_user(u, p)`: an upsert that
      creates a missing user from the defaults and leaves every other user alone. */
  function Updated(users: map<UserId, User>, u: UserId, p: UserPatch): (r: map<UserId, User>)
    ensures u in r && r[u] == ApplyPatch(UserOrDefault(users, u), p)
    ensures r.Keys == users.Keys + {u}
    ensures forall v :: v in users && v != u ==> r[v] == users[v]
  {
    users[u := ApplyPatch(UserOrDefault(users, u), p)]
  }

  datatype PendingStatus = Waiting | Success

  /** A row written by `add_pending_number`. */
  datatype PendingNumber = PendingNumber(user: UserId, phone: Phone, price: real, claimTime: int, status: PendingStatus)

  /** The pending-number table after `update_pending_number_status(id, status)`;
      an unknown id changes nothing. */
  function WithStatus(ps: seq<PendingNumber>, id: nat, status: PendingStatus): (r: seq<PendingNumber>)
    ensures |r| == |ps|
    ensures forall i :: 0 <= i < |ps| ==> r[i] == if i == id then ps[i].(status := status) else ps[i]
  {
    if id < |ps| then ps[id := ps[id].(status := status)] else ps
  }

  datatype WithdrawalStatus = Pending | Approved

  /** A row written by `log_withdrawal`. */
  datatype Withdrawal = Withdrawal(user: UserId, amount: real, card: string, status: WithdrawalStatus)

  predicate IsPendingFor(w: Withdrawal, card: string) {
    w.card == card && w.status == Pending
  }

  /** `get_pending_withdrawal(user_id)` is truthy. */
  predicate HasPendingWithdrawal(ws: seq<Withdrawal>, u: UserId) {
    exists i :: 0 <= i < |ws| && ws[i].user == u && ws[i].status == Pending
  }

  /** `get_pending_withdrawals_by_card(card)`: the pending rows for the card, in table order. */
  function PendingByCard(ws: seq<Withdrawal>, card: string): (r: seq<Withdrawal>)
    ensures forall i :: 0 <= i < |r| ==> IsPendingFor(r[i], card)
    ensures forall i :: 0 <= i < |ws| && IsPendingFor(ws[i], card) ==> ws[i] in r
    ensures forall w :: w in r ==> w in ws
    ensures multiset(r) <= multiset(ws)
    ensures forall w :: IsPendingFor(w, card) ==> multiset(r)[w] == multiset(ws)[w]
  {
    if ws == [] then []
    else
      var rest := PendingByCard(ws[..|ws| - 1], card);
      var w := ws[|ws| - 1];
      assert forall i :: 0 <= i < |ws| - 1 ==> ws[i] == ws[..|ws| - 1][i];
      assert ws == ws[..|ws| - 1] + [w];
      assert multiset(ws) == multiset(ws[..|ws| - 1]) + multiset{w};
      if IsPendingFor(w, card) then rest + [w] else rest
  }

  /** `approve_withdrawals_by_card(card)`: every pending row for the card becomes approved. */
  function ApproveByCard(ws: seq<Withdrawal>, card: string): (r: seq<Withdrawal>)
    ensures |r| == |ws|
    ensures forall i :: 0 <= i < |ws| ==> r[i] == if IsPendingFor(ws[i], card) then ws[i].(status := Approved) else ws[i]
  {
    seq(|ws|, i requires 0 <= i < |ws| => if IsPendingFor(ws[i], card) then ws[i].(status := Approved) else ws[i])
  }

  /** After approval no pending row is left for the card. */
  lemma {:induction false} ApproveLeavesNonePending(ws: seq<Withdrawal>, card: string)
    ensures PendingByCard(ApproveByCard(ws, card), card) == []
    decreases |ws|
  {
    if ws != [] {
      var r := ApproveByCard(ws, card);
      assert r[..|r| - 1] == ApproveByCard(ws[..|ws| - 1], card);
      ApproveLeavesNonePending(ws[..|ws| - 1], card);
    }
  }

  class Db {
    /** phone number -> the user it was claimed by (`mark_number_used`) */
    var usedNumbers: map<Phone, UserId>
    /** country code -> its row */
    var countries: map<string, Country>
    var users: map<UserId, User>
    /** pending-number rows; an id is an index */
    var pendingNumbers: seq<PendingNumber>
    var withdrawals: seq<Withdrawal>
    /** the leader-card names `check_leader_card` accepts */
    var leaderCards: set<string>

    constructor (countries: map<string, Country>, leaderCards: set<string>)
      ensures this.countries == countries && this.leaderCards == leaderCards
      ensures usedNumbers == map[] && users == map[] && pendingNumbers == [] && withdrawals == []
    {
      this.countries := countries;
      this.leaderCards := leaderCards;
      usedNumbers := map[];
      users := map[];
      pendingNumbers := [];
      withdrawals := [];
    }

    /** `check_number_used(phone)` */
    predicate IsUsed(phone: Phone)
      reads this
    {
      phone in usedNumbers
    }

    method MarkNumberUsed(phone: Phone, u: UserId)
      modifies this`usedNumbers
      ensures usedNumbers == old(usedNumbers)[phone := u]
    {
      usedNumbers := usedNumbers[phone := u];
    }

    method AddPendingNumber(u: UserId, phone: Phone, price: real, claimTime: int) returns (id: nat)
      modifies this`pendingNumbers
      ensures id == |old(pendingNumbers)|
      ensures pendingNumbers == old(pendingNumbers) + [PendingNumber(u, phone, price, claimTime, Waiting)]
    {
      id := |pendingNumbers|;
      pendingNumbers := pendingNumbers + [PendingNumber(u, phone, price, claimTime, Waiting)];
    }

    method UpdatePendingNumberStatus(id: nat, status: PendingStatus)
      modifies this`pendingNumbers
      ensures pendingNumbers == WithStatus(old(pendingNumbers), id, status)
    {
      pendingNumbers := WithStatus(pendingNumbers, id, status);
    }

    /** `update_user(u, p)`; `writeOk` is whether the store accepts the write,
        and a refused write changes nothing. */
    method UpdateUser(u: UserId, p: UserPatch, writeOk: bool) returns (success: bool)
      modifies this`users
      ensures success == writeOk
      ensures users == if writeOk then Updated(old(users), u, p) else old(users)
    {
      success := writeOk;
      if writeOk {
        users := Updated(users, u, p);
      }
    }

    method LogWithdrawal(u: UserId, amount: real, card: string)
      modifies this`withdrawals
      ensures withdrawals == old(withdrawals) + [Withdrawal(u, amount, card, Pending)]
    {
      withdrawals := withdrawals + [Withdrawal(u, amount, card, Pending)];
    }

    method ApproveWithdrawalsByCard(card: string)
      modifies this`withdrawals
      ensures withdrawals == ApproveByCard(old(withdrawals), card)
    {
      withdrawals := ApproveByCard(withdrawals, card);
    }
  }
}
