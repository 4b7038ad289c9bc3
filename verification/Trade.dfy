/**
 Trading: two players, an offer from each, and a table of the items that are on offer.

 A player who has been asked can accept before making an offer. The completion of such a trade lacks
 an offer, and the server uses a null pointer there; the model stops at that point (faulted).
 */
module Trade {

  datatype TradeState = TRADE_NONE | TRADE_INITIATED | TRADE_ACCEPT | TRADE_ACKNOWLEDGE | TRADE_TRANSFER

  /** An item that can be offered. */
  class Item {
    constructor () {}
  }

  class Player {
    var tradePartner: Player?
    var tradeItem: Item?
    var tradeState: TradeState
    ghost var hasty: bool   // has accepted the present trade in TRADE_ACKNOWLEDGE

    constructor ()
      ensures tradePartner == null && tradeItem == null && tradeState == TRADE_NONE && !hasty
    {
      tradePartner, tradeItem, tradeState, hasty := null, null, TRADE_NONE, false;
    }

    /** What goes with each state. A player in TRADE_ACKNOWLEDGE has made no offer yet. */
    ghost predicate StateFits()
      reads this
    {
      && (tradeState == TRADE_NONE <==> tradePartner == null)
      && (tradeState == TRADE_NONE || tradeState == TRADE_ACKNOWLEDGE ==> tradeItem == null)
      && (tradeState == TRADE_INITIATED ==> tradeItem != null)
      && (tradeState == TRADE_ACCEPT ==> (tradeItem == null <==> hasty))
      && (hasty ==> tradeState == TRADE_ACCEPT)
      && tradeState != TRADE_TRANSFER
    }
  }

  /** What comes of an acceptance. */
  datatype Outcome = Refused | Waiting | Completed(success: bool) | Faulted

  /** A completion: whether an offer was missing, and whether either player had accepted in TRADE_ACKNOWLEDGE. */
  datatype Completion = Completion(lacksOffer: bool, hasty: bool)

  /** A completion lacks an offer if and only if a player was hasty, and there is a fault if and only if one does. */
  ghost predicate CompletionsFit(completions: seq<Completion>, faulted: bool) {
    && (forall c :: c in completions ==> (c.lacksOffer <==> c.hasty))
    && (faulted <==> exists c :: c in completions && c.lacksOffer)
  }

  lemma OneMore(completions: seq<Completion>, c: Completion)
    requires CompletionsFit(completions, false) && (c.lacksOffer <==> c.hasty)
    ensures CompletionsFit(completions + [c], c.lacksOffer)
  {
    assert (completions + [c])[|completions|] == c;
    assert forall d :: d in completions + [c] ==> d in completions || d == c;
  }

  /** A call of one of the four entries, whatever came of it. */
  datatype Step =
    | Joined(player: Player)
    | Offered(player: Player, partner: Player, item: Item)
    | Accepted(player: Player, outcome: Outcome)
    | Closed(player: Player)

  class Trades {
    var tradeItems: map<Item, Player>      // who offers which item
    var faulted: bool
    ghost var S: set<Player>               // all players
    ghost var completions: seq<Completion> // all completions so far
    ghost var log: seq<Step>               // all calls so far

    constructor ()
      ensures S == {} && tradeItems == map[] && completions == [] && log == [] && !faulted && Valid()
    {
      S, tradeItems, completions, log, faulted := {}, map[], [], [], false;
    }

    /** Partners are each other's; two partners are both idle or both trading, and not both done. */
    ghost predicate Paired()
      reads this`S, S`tradePartner, S`tradeState
    {
      forall p :: p in S && p.tradePartner != null ==>
        && p.tradePartner in S && p.tradePartner != p && p.tradePartner.tradePartner == p
        && !(p.tradeState == TRADE_ACCEPT && p.tradePartner.tradeState == TRADE_ACCEPT)
    }

    /** Makes two partners idle. */
    method Part(player: Player, partner: Player?)
      requires player in S && (partner != null ==> partner in S && partner.tradePartner == player)
      requires player.tradePartner == partner
      requires forall p :: p in S && p.tradePartner != null ==>
                 p.tradePartner in S && p.tradePartner != p && p.tradePartner.tradePartner == p
      requires forall p :: p in S && p.tradePartner != null && p != player && p != partner ==>
                 !(p.tradeState == TRADE_ACCEPT && p.tradePartner.tradeState == TRADE_ACCEPT)
      modifies S`tradeState, S`tradePartner, S`hasty
      ensures Paired()
      ensures player.tradeState == TRADE_NONE && player.tradePartner == null && !player.hasty
      ensures partner != null ==> partner.tradeState == TRADE_NONE && partner.tradePartner == null && !partner.hasty
      ensures forall p :: p in S && p != player && p != partner ==>
                p.tradeState == old(p.tradeState) && p.tradePartner == old(p.tradePartner) && p.hasty == old(p.hasty)
    {
      player.tradeState := TRADE_NONE;
      player.tradePartner := null;
      player.hasty := false;
      if partner != null {
        partner.tradeState := TRADE_NONE;
        partner.tradePartner := null;
        partner.hasty := false;
      }
    }

    lemma PairOf(player: Player)
      requires Paired() && player in S
      ensures var q := player.tradePartner; q != null ==> q in S && q != player && q.tradePartner == player
    {
    }

    /** Puts a player's offer on the table. */
    method PutOnTable(player: Player, item: Item)
      requires Listed() && player in S && player.tradeItem == null && item !in tradeItems
      modifies this`tradeItems, player`tradeItem
      ensures Listed() && player.tradeItem == item && tradeItems == old(tradeItems)[item := player]
    {
      player.tradeItem := item;
      tradeItems := tradeItems[item := player];
    }

    /** Takes a player's offer off the table. */
    method Withdraw(player: Player)
      requires Listed() && player in S
      modifies this`tradeItems, player`tradeItem
      ensures Listed() && player.tradeItem == null && tradeItems == old(tradeItems) - {old(player.tradeItem)}
    {
      if player.tradeItem != null {
        tradeItems := tradeItems - {player.tradeItem};
        player.tradeItem := null;
      }
    }

    /** The table holds just the offers, each once, under its owner's name. */
    ghost predicate Listed()
      reads this`tradeItems, this`S, S`tradeItem
    {
      && (forall p :: p in S && p.tradeItem != null ==> p.tradeItem in tradeItems && tradeItems[p.tradeItem] == p)
      && (forall i :: i in tradeItems ==> tradeItems[i] in S && tradeItems[i].tradeItem == i)
    }

    ghost predicate Valid()
      reads this`S, this`tradeItems, this`faulted, this`completions, S
    {
      && CompletionsFit(completions, faulted)
      && (!faulted ==> Paired() && Listed() && forall p :: p in S ==> p.StateFits())
    }

    method AddPlayer() returns (p: Player)
      requires Valid() && !faulted
      modifies this`S, this`log
      ensures Valid() && fresh(p) && S == old(S) + {p} && log == old(log) + [Joined(p)]
      ensures p.tradeState == TRADE_NONE && p.tradePartner == null && p.tradeItem == null
    {
      p := new Player();
      S, log := S + {p}, log + [Joined(p)];
    }

    /**
     playerRequestTrade and internalStartTrade: a first offer, or the counter-offer of a player who has
     been asked. related says whether the item is on offer already, inside an offer or around one.
     */
    method StartTrade(player: Player, partner: Player, item: Item, related: bool) returns (ok: bool)
      requires Valid() && !faulted && player in S && partner in S
      requires item in tradeItems ==> related
      modifies this`tradeItems, this`log, player, partner
      ensures Valid() && (old(Careful()) ==> Careful()) && log == old(log) + [Offered(player, partner, item)]
      ensures ok <==> player != partner && !related
                      && (old(player.tradeState) == TRADE_NONE ||
                          (old(player.tradeState) == TRADE_ACKNOWLEDGE && old(player.tradePartner) == partner))
                      && (old(partner.tradeState) == TRADE_NONE || old(partner.tradePartner) == player)
      ensures !ok ==> tradeItems == old(tradeItems) && unchanged(player) && unchanged(partner)
      ensures player.hasty == old(player.hasty) && partner.hasty == old(partner.hasty)
      ensures ok ==>
                && player.tradeState == TRADE_INITIATED && player.tradePartner == partner && player.tradeItem == item
                && tradeItems == old(tradeItems)[item := player]
                && partner.tradePartner == player && partner.tradeItem == old(partner.tradeItem)
                && partner.tradeState
                   == if old(partner.tradeState) == TRADE_NONE then TRADE_ACKNOWLEDGE else old(partner.tradeState)
    {
      hide Listed, CompletionsFit;
      log := log + [Offered(player, partner, item)];
      if partner == player {
        return false;
      }
      if related {
        return false;
      }
      if player.tradeState != TRADE_NONE
         && !(player.tradeState == TRADE_ACKNOWLEDGE && player.tradePartner == partner) {
        return false;
      } else if partner.tradeState != TRADE_NONE && partner.tradePartner != player {
        return false;
      }
      MakeOffer(player, partner, item);
      return true;
    }

    /** The part of internalStartTrade that follows the checks. */
    method MakeOffer(player: Player, partner: Player, item: Item)
      requires Valid() && !faulted && player in S && partner in S && player != partner && item !in tradeItems
      requires || player.tradeState == TRADE_NONE
               || (player.tradeState == TRADE_ACKNOWLEDGE && player.tradePartner == partner)
      requires partner.tradeState == TRADE_NONE || partner.tradePartner == player
      modifies this`tradeItems, player, partner
      ensures Valid() && (old(Careful()) ==> Careful())
      ensures player.tradeState == TRADE_INITIATED && player.tradePartner == partner && player.tradeItem == item
      ensures tradeItems == old(tradeItems)[item := player]
      ensures player.hasty == old(player.hasty) && partner.hasty == old(partner.hasty)
      ensures partner.tradePartner == player && partner.tradeItem == old(partner.tradeItem)
      ensures partner.tradeState
           == if old(partner.tradeState) == TRADE_NONE then TRADE_ACKNOWLEDGE else old(partner.tradeState)
    {
      hide Listed, CompletionsFit, Paired;
      PairOf(player);
      PairOf(partner);
      PutOnTable(player, item);
      Pair(player, partner);
    }

    /** Makes two players partners: the one has made an offer, the other is asked if idle so far. */
    method Pair(player: Player, partner: Player)
      requires Paired() && player in S && partner in S && player != partner
      requires player.tradePartner == null || player.tradePartner == partner
      requires partner.tradeState == TRADE_NONE ==> partner.tradePartner == null
      requires partner.tradeState != TRADE_NONE ==> partner.tradePartner == player
      modifies player`tradePartner, player`tradeState, partner`tradePartner, partner`tradeState
      ensures Paired()
      ensures player.tradeState == TRADE_INITIATED && player.tradePartner == partner && partner.tradePartner == player
      ensures partner.tradeState
           == if old(partner.tradeState) == TRADE_NONE then TRADE_ACKNOWLEDGE else old(partner.tradeState)
    {
      player.tradePartner := partner;
      player.tradeState := TRADE_INITIATED;
      if partner.tradeState == TRADE_NONE {
        partner.tradeState := TRADE_ACKNOWLEDGE;
        partner.tradePartner := player;
      }
    }

    /** Whether an acceptance now would complete the trade. */
    ghost predicate Completing(player: Player)
      reads player, player.tradePartner
    {
      && (player.tradeState == TRADE_ACKNOWLEDGE || player.tradeState == TRADE_INITIATED)
      && player.tradePartner != null && player.tradePartner.tradeState == TRADE_ACCEPT
    }

    /**
     playerAcceptTrade. If the partner has accepted already, the trade is completed: success says
     whether the items could change hands. Both players are idle afterwards either way, except that
     the completion faults if and only if one of the two accepted in TRADE_ACKNOWLEDGE: then, and only
     then, an offer is missing.
     */
    method AcceptTrade(player: Player, success: bool) returns (outcome: Outcome)
      requires Valid() && !faulted && player in S
      modifies this`tradeItems, this`faulted, this`completions, this`log, S
      ensures Valid() && (faulted <==> outcome == Faulted) && log == old(log) + [Accepted(player, outcome)]
      ensures outcome == Faulted <==>
                && old(Completing(player))
                && (old(player.tradeState) == TRADE_ACKNOWLEDGE || old(player.tradePartner.hasty))
      ensures outcome == Faulted <==>
                old(Completing(player)) && (old(player.tradeItem) == null || old(player.tradePartner.tradeItem) == null)
      ensures outcome == Faulted <==>
                && old(Completing(player))
                && !(old(player.tradeState) == TRADE_INITIATED && old(player.tradePartner.tradeItem) != null)
      ensures old(Careful()) && !faulted ==> (Careful() <==> old(player.tradeState) != TRADE_ACKNOWLEDGE)
      ensures completions ==
                if old(Completing(player)) then
                  old(completions) +
                  [Completion(old(player.tradeItem) == null || old(player.tradePartner.tradeItem) == null,
                              old(player.tradeState) == TRADE_ACKNOWLEDGE || old(player.tradePartner.hasty))]
                else old(completions)
      ensures var s := old(player.tradeState);
              var q := old(player.tradePartner);
              if s != TRADE_ACKNOWLEDGE && s != TRADE_INITIATED then
                outcome == Refused && tradeItems == old(tradeItems) && unchanged(S)
              else if old(Completing(player)) then
                && tradeItems == old(tradeItems) - {old(player.tradeItem), old(q.tradeItem)}
                && if outcome == Faulted then player.tradeState == q.tradeState == TRADE_TRANSFER
                   else outcome == Completed(success)
                        && player.tradeState == q.tradeState == TRADE_NONE && player.tradeItem == q.tradeItem == null
              else
                && outcome == Waiting && player.tradeState == TRADE_ACCEPT && tradeItems == old(tradeItems)
                && player.tradeItem == old(player.tradeItem) && player.tradePartner == q
                && (player.hasty <==> s == TRADE_ACKNOWLEDGE)
      ensures forall p :: p in S && p != player && p != old(player.tradePartner) ==> unchanged(p)
    {
      hide Listed, CompletionsFit;
      if !(player.tradeState == TRADE_ACKNOWLEDGE || player.tradeState == TRADE_INITIATED) {
        log := log + [Accepted(player, Refused)];
        return Refused;
      }
      PairOf(player);
      player.hasty := player.tradeState == TRADE_ACKNOWLEDGE;
      player.tradeState := TRADE_ACCEPT;
      var partner := player.tradePartner;
      if partner != null && partner.tradeState == TRADE_ACCEPT {
        outcome := Transfer(player, partner, success);
        log := log + [Accepted(player, outcome)];
        return;
      }
      log := log + [Accepted(player, Waiting)];
      return Waiting;
    }

    /**
     The part of playerAcceptTrade for two players who have both accepted. A missing offer cannot be
     handed over, and telling its owner so goes through a null pointer.
     */
    method Transfer(player: Player, partner: Player, success: bool) returns (outcome: Outcome)
      requires player in S && partner in S && player != partner && Listed()
                 && CompletionsFit(completions, faulted) && !faulted
      requires player.tradePartner == partner && partner.tradePartner == player
      requires (player.tradeItem == null <==> player.hasty) && (partner.tradeItem == null <==> partner.hasty)
      requires forall p :: p in S && p.tradePartner != null ==>
                 p.tradePartner in S && p.tradePartner != p && p.tradePartner.tradePartner == p
      requires forall p :: p in S && p.tradePartner != null && p != player && p != partner ==>
                 !(p.tradeState == TRADE_ACCEPT && p.tradePartner.tradeState == TRADE_ACCEPT)
      modifies this`tradeItems, this`faulted, this`completions, S
      ensures CompletionsFit(completions, faulted) && (faulted <==> outcome == Faulted)
      ensures outcome == Faulted <==> old(player.hasty) || old(partner.hasty)
      ensures completions == old(completions) +
                [Completion(old(player.tradeItem) == null || old(partner.tradeItem) == null,
                    old(player.hasty) || old(partner.hasty))]
      ensures tradeItems == old(tradeItems) - {old(player.tradeItem), old(partner.tradeItem)}
      ensures faulted ==> player.tradeState == partner.tradeState == TRADE_TRANSFER
      ensures !faulted ==>
                && outcome == Completed(success) && Paired() && Listed()
                && player.tradeState == TRADE_NONE && player.tradePartner == null
                && player.tradeItem == null && !player.hasty
                && partner.tradeState == TRADE_NONE && partner.tradePartner == null
                && partner.tradeItem == null && !partner.hasty
      ensures forall p :: p in S && p != player && p != partner ==> unchanged(p)
    {
      hide Listed, Paired, CompletionsFit;
      player.tradeState := TRADE_TRANSFER;
      partner.tradeState := TRADE_TRANSFER;
      ghost var lacks := player.tradeItem == null || partner.tradeItem == null;
      ghost var made := Completion(lacks, player.hasty || partner.hasty);
      OneMore(completions, made);
      completions := completions + [made];
      if player.tradeItem == null || partner.tradeItem == null {
        tradeItems := tradeItems - {player.tradeItem};
        tradeItems := tradeItems - {partner.tradeItem};
        faulted := true;
        return Faulted;
      }
      HandOver(player, partner);
      return Completed(success);
    }

    /** Both offers leave the table, and both players are idle. */
    method HandOver(player: Player, partner: Player)
      requires player in S && partner in S && player != partner && Listed()
      requires player.tradePartner == partner && partner.tradePartner == player
      requires forall p :: p in S && p.tradePartner != null ==>
                 p.tradePartner in S && p.tradePartner != p && p.tradePartner.tradePartner == p
      requires forall p :: p in S && p.tradePartner != null && p != player && p != partner ==>
                 !(p.tradeState == TRADE_ACCEPT && p.tradePartner.tradeState == TRADE_ACCEPT)
      modifies this`tradeItems, S
      ensures Paired() && Listed()
      ensures tradeItems == old(tradeItems) - {old(player.tradeItem), old(partner.tradeItem)}
      ensures player.tradeState == TRADE_NONE && player.tradePartner == null && player.tradeItem == null
                && !player.hasty
      ensures partner.tradeState == TRADE_NONE && partner.tradePartner == null && partner.tradeItem == null
                && !partner.hasty
      ensures forall p :: p in S && p != player && p != partner ==> unchanged(p)
    {
      hide Listed, Paired;
      Withdraw(player);
      Withdraw(partner);
      Part(player, partner);
    }

    /** Whoever has accepted has made an offer. */
    ghost predicate Careful()
      reads this`S, S`tradeState, S`tradeItem
    {
      forall p :: p in S && p.tradeState == TRADE_ACCEPT ==> p.tradeItem != null
    }

    /** internalCloseTrade: both partners are idle, and neither offer is on the table any more. */
    method CloseTrade(player: Player)
      requires Valid() && !faulted && player in S
      modifies this`tradeItems, this`log, S
      ensures Valid() && !faulted && (old(Careful()) ==> Careful()) && log == old(log) + [Closed(player)]
      ensures player.tradeState == TRADE_NONE && player.tradeItem == null
      ensures var q := old(player.tradePartner);
              && (q != null ==> q.tradeState == TRADE_NONE && q.tradeItem == null)
              && tradeItems
                 == old(tradeItems) - {old(player.tradeItem)} - (if q != null then {old(q.tradeItem)} else {})
      ensures forall p :: p in S && p != player && p != old(player.tradePartner) ==> unchanged(p)
    {
      hide Listed, CompletionsFit;
      PairOf(player);
      var partner := player.tradePartner;
      if (partner != null && partner.tradeState == TRADE_TRANSFER) || player.tradeState == TRADE_TRANSFER {
        assert false;
      }
      Separate(player, partner);
      log := log + [Closed(player)];
    }

    /** Two partners take back their offers and part. */
    method Separate(player: Player, partner: Player?)
      requires Listed() && Paired() && player in S && player.tradePartner == partner
      requires partner != null ==> partner in S && partner != player && partner.tradePartner == player
      modifies this`tradeItems, S
      ensures Listed() && Paired() && Idle(player) && (partner != null ==> Idle(partner))
      ensures tradeItems
           == old(tradeItems) - {old(player.tradeItem)} - (if partner != null then {old(partner.tradeItem)} else {})
      ensures forall p :: p in S && p != player && p != partner ==> unchanged(p)
    {
      hide Listed;
      WithdrawBoth(player, partner);
      Part(player, partner);
    }

    ghost predicate Idle(p: Player)
      reads p
    {
      p.tradeState == TRADE_NONE && p.tradePartner == null && p.tradeItem == null && !p.hasty
    }

    /** Takes the offers of two partners off the table. */
    method WithdrawBoth(player: Player, partner: Player?)
      requires Listed() && player in S && (partner != null ==> partner in S && partner != player)
      modifies this`tradeItems, (if partner != null then {player, partner} else {player})`tradeItem
      ensures Listed() && player.tradeItem == null && (partner != null ==> partner.tradeItem == null)
      ensures tradeItems
           == old(tradeItems) - {old(player.tradeItem)} - (if partner != null then {old(partner.tradeItem)} else {})
    {
      hide Listed;
      Withdraw(player);
      if partner != null {
        Withdraw(partner);
      }
    }
  }
  datatype Event =
    | Joins
    | Offers(player: nat, partner: nat, item: Item, related: bool)
    | Accepts(player: nat, success: bool)
    | Closes(player: nat)

  function JoinsIn(run: seq<Event>): nat {
    if run == [] then 0 else JoinsIn(run[..|run| - 1]) + (if run[|run| - 1].Joins? then 1 else 0)
  }

  /** The players of a step are those whose numbers the event says. */
  predicate Matches(e: Event, players: seq<Player>, joined: nat, step: Step)
    requires joined <= |players|
  {
    match e
    case Joins => step.Joined? && joined < |players| && step.player == players[joined]
    case Offers(a, b, item, _) => a < joined && b < joined && step == Offered(players[a], players[b], item)
    case Accepts(a, _) => a < joined && step.Accepted? && step.player == players[a]
    case Closes(a) => a < joined && step == Closed(players[a])
  }

  /** An event that names a player who has not joined yet is no step. */
  predicate IsStep(e: Event, joined: nat) {
    match e
    case Joins => true
    case Offers(a, b, _, _) => a < joined && b < joined
    case Accepts(a, _) => a < joined
    case Closes(a) => a < joined
  }

  /** The log has one step for each event of the run, in order, and nothing else. */
  predicate Follows(run: seq<Event>, players: seq<Player>, log: seq<Step>)
    decreases |run|
  {
    if run == [] then log == []
    else
      var k, n := |run| - 1, JoinsIn(run[..|run| - 1]);
      if n <= |players| && IsStep(run[k], n)
      then log != [] && Matches(run[k], players, n, log[|log| - 1]) && Follows(run[..k], players, log[..|log| - 1])
      else n <= |players| && Follows(run[..k], players, log)
  }

  lemma FollowsOn(run: seq<Event>, players: seq<Player>, log: seq<Step>, e: Event, step: Step)
    requires Follows(run, players, log) && JoinsIn(run) <= |players| && IsStep(e, JoinsIn(run))
    requires Matches(e, players, JoinsIn(run), step)
    ensures Follows(run + [e], players, log + [step])
  {
    assert (run + [e])[..|run|] == run && (log + [step])[..|log|] == log;
  }

  lemma FollowsIdle(run: seq<Event>, players: seq<Player>, log: seq<Step>, e: Event)
    requires Follows(run, players, log) && JoinsIn(run) <= |players| && !IsStep(e, JoinsIn(run))
    ensures Follows(run + [e], players, log)
  {
    assert (run + [e])[..|run|] == run;
  }

  /** Players who join later change nothing about what has been done. */
  lemma {:induction false} FollowsLonger(run: seq<Event>, players: seq<Player>, log: seq<Step>, p: Player)
    requires Follows(run, players, log)
    ensures Follows(run, players + [p], log)
    decreases |run|
  {
    if run != [] {
      var k, n := |run| - 1, JoinsIn(run[..|run| - 1]);
      if n <= |players| && IsStep(run[k], n) {
        FollowsLonger(run[..k], players, log[..|log| - 1], p);
      } else {
        FollowsLonger(run[..k], players, log, p);
      }
    }
  }

  lemma JoinsOn(run: seq<Event>, e: Event)
    ensures JoinsIn(run + [e]) == JoinsIn(run) + if e.Joins? then 1 else 0
  {
    assert (run + [e])[..|run|] == run;
  }

  /**
   Any run of players joining, offering, accepting and closing, up to its end or to the first fault;
   done says how much of it that is. In all of it a completion lacked an offer if and only if one of
   the two players had accepted in TRADE_ACKNOWLEDGE, and there is a fault if and only if there was
   such a completion.
   */
  method Run(run: seq<Event>) returns (t: Trades, players: seq<Player>, ghost done: nat)
    ensures fresh(t) && t.Valid()
    ensures done <= |run| && (done < |run| ==> t.faulted)
    ensures Follows(run[..done], players, t.log)
    ensures forall c :: c in t.completions ==> (c.lacksOffer <==> c.hasty)
    ensures t.faulted <==> exists c :: c in t.completions && c.hasty
  {
    hide Follows;
    t := new Trades();
    players := [];
    var i := 0;
    NothingFollows(players);
    while i < |run| && !t.faulted
      invariant i <= |run| && fresh(t) && t.Valid() && fresh(t.S) && (forall p :: p in players ==> p in t.S)
      invariant |players| == JoinsIn(run[..i]) && Follows(run[..i], players, t.log)
    {
      assert run[..i + 1] == run[..i] + [run[i]];
      ghost var log, before := t.log, players;
      JoinsOn(run[..i], run[i]);
      players := Play(t, run[i], players);
      FollowsPlay(run[..i], before, log, run[i], players, t.log);
      i := i + 1;
    }
    done := i;
  }

  /** One event of a run. */
  method Play(t: Trades, e: Event, players0: seq<Player>) returns (players: seq<Player>)
    requires t.Valid() && !t.faulted && forall p :: p in players0 ==> p in t.S
    modifies t, t.S
    ensures t.Valid() && t.S >= old(t.S) && fresh(t.S - old(t.S)) && forall p :: p in players ==> p in t.S
    ensures Played(e, players0, old(t.log), players, t.log)
  {
    players := players0;
    match e {
      case Joins =>
        var p := t.AddPlayer();
        players := players + [p];
      case Offers(a, b, item, related) =>
        if a < |players| && b < |players| {
          assert players[a] in t.S && players[b] in t.S;
          var _ := t.StartTrade(players[a], players[b], item, related || item in t.tradeItems);
        }
      case Accepts(a, success) =>
        if a < |players| {
          var _ := t.AcceptTrade(players[a], success);
        }
      case Closes(a) =>
        if a < |players| {
          t.CloseTrade(players[a]);
        }
    }
  }

  /** What an event does to the players and the log. */
  predicate Played(e: Event, before: seq<Player>, log: seq<Step>, players: seq<Player>, log': seq<Step>) {
    && before <= players && |players| == |before| + (if e.Joins? then 1 else 0)
    && if IsStep(e, |before|)
       then |log'| == |log| + 1 && log'[..|log|] == log && Matches(e, players, |before|, log'[|log|])
       else log' == log
  }

  lemma FollowsPlay(run: seq<Event>, before: seq<Player>, log: seq<Step>, e: Event, players: seq<Player>,
                    log': seq<Step>)
    requires Follows(run, before, log) && |before| == JoinsIn(run) && Played(e, before, log, players, log')
    ensures Follows(run + [e], players, log')
  {
    hide Follows, Matches;
    if e.Joins? {
      assert players == before + [players[|before|]];
      FollowsLonger(run, before, log, players[|before|]);
    } else {
      assert players == before;
    }
    if IsStep(e, |before|) {
      assert log' == log + [log'[|log|]];
      FollowsOn(run, players, log, e, log'[|log|]);
    } else {
      FollowsIdle(run, players, log, e);
    }
  }

  lemma NothingFollows(players: seq<Player>)
    ensures Follows([], players, []) && JoinsIn([]) == 0
  {
  }

  /** Any two idle players can get there: one asks, the other accepts, and then the first. */
  method HastyTrade(t: Trades, player: Player, partner: Player, item: Item)
    requires t.Valid() && !t.faulted && player in t.S && partner in t.S && player != partner && item !in t.tradeItems
    requires player.tradeState == partner.tradeState == TRADE_NONE
    modifies t, t.S
    ensures t.Valid() && t.faulted && t.completions == old(t.completions) + [Completion(true, true)]
  {
    hide CompletionsFit;
    var _ := t.StartTrade(player, partner, item, false);
    var first := t.AcceptTrade(partner, true);
    assert first == Waiting && partner.hasty;
    var second := t.AcceptTrade(player, true);
  }
}
