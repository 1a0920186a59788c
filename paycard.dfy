/** The `/paycard <card>` admin command of paycard.py: every withdrawal still
    pending for the card is deducted from its user's balance, clamped at
    zero, and then all of them are approved. */
module Paycard {
  import opened Common
  import opened Store

  // ----- Parsing the command -----------------------------------------------------

  /** The length of the leading run of non-whitespace of `t`. */
  function TokenEnd(t: string): (k: nat)
    ensures k <= |t|
    ensures forall i :: 0 <= i < k ==> !IsSpace(t[i])
    ensures k < |t| ==> IsSpace(t[k])
  {
    if t == [] || IsSpace(t[0]) then 0
    else
      var k := TokenEnd(t[1..]);
      assert forall i :: 1 <= i < 1 + k ==> t[i] == t[1..][i - 1];
      1 + k
  }

  /** Python's `s.split(maxsplit=1)`: the first word, and what follows it
      without its leading whitespace, if anything does. */
  function SplitOnce(s: string): (r: seq<string>)
    ensures |r| <= 2
    ensures |r| >= 1 ==> r[0] != [] && forall j :: 0 <= j < |r[0]| ==> !IsSpace(r[0][j])
    ensures |r| == 2 ==> r[1] != [] && !IsSpace(r[1][0])
  {
    var t := StripStart(s);
    if t == [] then []
    else
      var k := TokenEnd(t);
      var rest := StripStart(t[k..]);
      if rest == [] then [t[..k]] else [t[..k], rest]
  }

  /** The card name of a `/paycard` message: the stripped rest after the
      command word, or `None` when there is no rest. */
  function ParseCard(text: string): (r: Option<string>)
    ensures r.Some? ==> r.value != [] && IsStripped(r.value)
  {
    var parts := SplitOnce(text);
    if |parts| != 2 then None
    else
      StripNonEmpty(parts[1]);
      Some(Strip(parts[1]))
  }

  lemma StripNonEmpty(s: string)
    requires s != [] && !IsSpace(s[0])
    ensures Strip(s) != []
  {
    assert StripStart(s) == s;
  }

  lemma {:induction false} TokenEndOfWord(w: string, rest: string)
    requires forall i :: 0 <= i < |w| ==> !IsSpace(w[i])
    requires rest == [] || IsSpace(rest[0])
    ensures TokenEnd(w + rest) == |w|
    decreases |w|
  {
    if w == [] {
      assert w + rest == rest;
    } else {
      assert (w + rest)[1..] == w[1..] + rest;
      TokenEndOfWord(w[1..], rest);
    }
  }

  /** Splitting a command word, whitespace and a non-blank rest gives the word and the rest. */
  lemma SplitOfCommand(cmd: string, sep: string, rest: string)
    requires cmd != [] && forall i :: 0 <= i < |cmd| ==> !IsSpace(cmd[i])
    requires sep != [] && AllSpace(sep)
    requires rest != [] && !IsSpace(rest[0])
    ensures SplitOnce(cmd + sep + rest) == [cmd, rest]
  {
    var s := cmd + sep + rest;
    assert s == cmd + (sep + rest);
    assert s[0] == cmd[0];
    assert StripStart(s) == s;
    TokenEndOfWord(cmd, sep + rest);
    assert s[..|cmd|] == cmd;
    assert s[|cmd|..] == sep + rest;
    StripStartOfSpaces(sep, rest);
  }

  /** A command word, whitespace and a card name, with any padding after it,
      parse to that card name. */
  lemma ParseCardOfCommand(cmd: string, sep: string, card: string, post: string)
    requires cmd != [] && forall i :: 0 <= i < |cmd| ==> !IsSpace(cmd[i])
    requires sep != [] && AllSpace(sep)
    requires card != [] && IsStripped(card)
    requires AllSpace(post)
    ensures ParseCard(cmd + sep + card + post) == Some(card)
  {
    assert cmd + sep + card + post == cmd + sep + (card + post);
    assert (card + post)[0] == card[0];
    SplitOfCommand(cmd, sep, card + post);
    StripOfPadded([], card, post);
    assert [] + card + post == card + post;
  }

  /** A command word alone, however padded, is a usage error. */
  lemma CommandAloneHasNoCard(pre: string, cmd: string, post: string)
    requires AllSpace(pre) && AllSpace(post)
    requires cmd != [] && forall i :: 0 <= i < |cmd| ==> !IsSpace(cmd[i])
    ensures ParseCard(pre + cmd + post) == None
  {
    assert pre + cmd + post == pre + (cmd + post);
    StripStartOfSpaces(pre, cmd + post);
    TokenEndOfWord(cmd, post);
    assert (cmd + post)[|cmd|..] == post;
    StripStartOfSpaces(post, []);
    assert post + [] == post;
  }

  // ----- Deducting the withdrawals ---------------------------------------------------

  /** `max(0.0, balance - amount)` */
  function Deducted(balance: real, amount: real): (r: real)
    ensures r >= 0.0 && r >= balance - amount
    ensures r == 0.0 || r == balance - amount
  {
    if balance - amount > 0.0 then balance - amount else 0.0
  }

  function BalancePatch(balance: real): (p: UserPatch) {
    UserPatch(Some(balance), None, None, None, None)
  }

  /** The users table after the deduction loop has processed `ws` in order;
      each step reads the balance as the previous steps left it. */
  function ApplyDeductions(users: map<UserId, User>, ws: seq<Withdrawal>): (r: map<UserId, User>)
    ensures forall u :: u in r <==> u in users || Mentions(ws, u)
    ensures forall u :: u in users ==> r[u] == users[u].(balance := r[u].balance)
    decreases |ws|
  {
    if ws == [] then users
    else
      var before := ApplyDeductions(users, ws[..|ws| - 1]);
      var w := ws[|ws| - 1];
      Updated(before, w.user, BalancePatch(Deducted(UserOrDefault(before, w.user).balance, w.amount)))
  }

  /** One more turn of the loop is one more step of `ApplyDeductions`. */
  lemma DeductionStep(users: map<UserId, User>, ws: seq<Withdrawal>, i: nat)
    requires i < |ws|
    ensures var before := ApplyDeductions(users, ws[..i]);
      ApplyDeductions(users, ws[..i + 1])
        == Updated(before, ws[i].user, BalancePatch(Deducted(UserOrDefault(before, ws[i].user).balance, ws[i].amount)))
  {
    assert ws[..i + 1][..i] == ws[..i];
  }

  /** Whether some withdrawal of `ws` belongs to `u`. */
  predicate Mentions(ws: seq<Withdrawal>, u: UserId) {
    ws != [] && (ws[|ws| - 1].user == u || Mentions(ws[..|ws| - 1], u))
  }

  /** The total amount of the withdrawals of `u` in `ws`. */
  function AmountFor(ws: seq<Withdrawal>, u: UserId): (r: real) {
    if ws == [] then 0.0
    else AmountFor(ws[..|ws| - 1], u) + (if ws[|ws| - 1].user == u then ws[|ws| - 1].amount else 0.0)
  }

  lemma {:induction false} NoWithdrawalsNoAmount(ws: seq<Withdrawal>, u: UserId)
    requires !Mentions(ws, u)
    ensures AmountFor(ws, u) == 0.0
    decreases |ws|
  {
    if ws != [] {
      NoWithdrawalsNoAmount(ws[..|ws| - 1], u);
    }
  }

  /** Deducting several non-negative amounts one at a time, each clamped at
      zero, is deducting their total once and clamping; a user with no
      withdrawal in the list is left exactly as it was. */
  lemma {:induction false} DeductionsClosedForm(users: map<UserId, User>, ws: seq<Withdrawal>, u: UserId)
    requires forall i :: 0 <= i < |ws| ==> ws[i].amount >= 0.0
    ensures var r := ApplyDeductions(users, ws);
      Mentions(ws, u) ==>
        u in r && r[u] == UserOrDefault(users, u).(balance := Deducted(UserOrDefault(users, u).balance, AmountFor(ws, u)))
    ensures var r := ApplyDeductions(users, ws);
      !Mentions(ws, u) ==> (u in r <==> u in users) && (u in users ==> r[u] == users[u])
    decreases |ws|
  {
    if ws != [] {
      var ws' := ws[..|ws| - 1];
      var w := ws[|ws| - 1];
      assert forall i :: 0 <= i < |ws'| ==> ws'[i] == ws[i];
      DeductionsClosedForm(users, ws', u);
      if w.user == u && !Mentions(ws', u) {
        NoWithdrawalsNoAmount(ws', u);
      }
    }
  }

  /** After the loop every user it touched has a non-negative balance. */
  lemma DeductedBalancesAreNonNegative(users: map<UserId, User>, ws: seq<Withdrawal>, u: UserId)
    requires forall i :: 0 <= i < |ws| ==> ws[i].amount >= 0.0
    requires Mentions(ws, u)
    ensures u in ApplyDeductions(users, ws) && ApplyDeductions(users, ws)[u].balance >= 0.0
  {
    DeductionsClosedForm(users, ws, u);
  }

  // ----- The command -----------------------------------------------------------------

  datatype PaycardReply = Unauthorized | Usage | NoPending(card: string) | Paid(card: string, paid: nat)

  /** The deduction loop of `handle_paycard`: for each withdrawal in turn, the
      balance its user has now, less the amount, clamped at zero, is written
      back. */
  method DeductAll(db: Db, pending: seq<Withdrawal>)
    modifies db`users
    ensures db.users == ApplyDeductions(old(db.users), pending)
  {
    var i := 0;
    while i < |pending|
      invariant 0 <= i <= |pending|
      invariant db.users == ApplyDeductions(old(db.users), pending[..i])
    {
      var w := pending[i];
      var current := UserOrDefault(db.users, w.user).balance;
      DeductionStep(old(db.users), pending, i);
      var _ := db.UpdateUser(w.user, BalancePatch(Deducted(current, w.amount)), true);
      i := i + 1;
    }
    assert pending[..i] == pending;
  }

  /** `handle_paycard`: only an admin may use it; the message must name a
      card; the card's pending withdrawals are deducted in table order and
      then approved together. */
  method HandlePaycard(db: Db, adminIds: set<UserId>, caller: UserId, text: string) returns (r: PaycardReply)
    modifies db`users, db`withdrawals
    ensures caller !in adminIds ==>
      r == Unauthorized && db.users == old(db.users) && db.withdrawals == old(db.withdrawals)
    ensures caller in adminIds && ParseCard(text).None? ==>
      r == Usage && db.users == old(db.users) && db.withdrawals == old(db.withdrawals)
    ensures caller in adminIds && ParseCard(text).Some? ==>
      var card := ParseCard(text).value;
      var pending := PendingByCard(old(db.withdrawals), card);
      if pending == [] then
        r == NoPending(card) && db.users == old(db.users) && db.withdrawals == old(db.withdrawals)
      else
        && r == Paid(card, |pending|)
        && db.users == ApplyDeductions(old(db.users), pending)
        && db.withdrawals == ApproveByCard(old(db.withdrawals), card)
  {
    if caller !in adminIds {
      return Unauthorized;
    }
    var parsed := ParseCard(text);
    if parsed.None? {
      return Usage;
    }
    var card := parsed.value;
    var pending := PendingByCard(db.withdrawals, card);
    if pending == [] {
      return NoPending(card);
    }
    DeductAll(db, pending);
    db.ApproveWithdrawalsByCard(card);
    r := Paid(card, |pending|);
  }

  /** A second `/paycard <card>` from an admin finds nothing left to pay. */
  method SecondPaycardFindsNothing(db: Db, adminIds: set<UserId>, caller: UserId, card: string)
    returns (first: PaycardReply, second: PaycardReply)
    requires caller in adminIds && card != [] && IsStripped(card)
    modifies db`users, db`withdrawals
    ensures second == NoPending(card)
    ensures db.withdrawals == ApproveByCard(old(db.withdrawals), card)
  {
    var text := "/paycard" + " " + card + "";
    assert ParseCard(text) == Some(card) by {
      assert forall i :: 0 <= i < |"/paycard"| ==> !IsSpace("/paycard"[i]);
      assert AllSpace(" ") && AllSpace("");
      ParseCardOfCommand("/paycard", " ", card, "");
    }
    first := HandlePaycard(db, adminIds, caller, text);
    ApproveLeavesNonePending(old(db.withdrawals), card);
    second := HandlePaycard(db, adminIds, caller, text);
  }
}
