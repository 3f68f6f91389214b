/** Conversations through the handlers, proved from their contracts alone. */
module Scenarios {
  import opened Wrappers
  import opened CaseMap
  import opened Keyboard
  import opened Quota
  import opened Workflow

  lemma VendorV1(id: int)
    ensures IsVendor(User(id, Some("V1")), ["v1"])
    ensures Handle(User(id, Some("V1"))) == "v1"
  {
    assert LowerStr("V1") == "v1" by {
      assert LowerStr("V1")[0] == 'v' && LowerStr("V1")[1] == '1';
    }
  }

  lemma SmallCounts()
    ensures ParseCount("count_1") == Some(1)
    ensures ParseCount("count_2") == Some(2)
    ensures ParseCount("count_3") == Some(3)
  {
    ParseCountOf(1);
    ParseCountOf(2);
    ParseCountOf(3);
    assert DigitChar(1) == '1' && DigitChar(2) == '2' && DigitChar(3) == '3';
    assert "count_" + Digits(1) == "count_1";
    assert "count_" + Digits(2) == "count_2";
    assert "count_" + Digits(3) == "count_3";
  }

  /** A vendor starts, picks three items, submits them and confirms with a
      fresh quota: one listing is sent, the draft is gone and one post is
      charged for the day. */
  method ThreeItemListing(id: int, today: Day, messageId: int) returns (outcome: PublishOutcome, charged: int)
    ensures outcome == Posted(messageId)
    ensures charged == 1
  {
    var v1 := User(id, Some("V1"));
    VendorV1(id);
    var bot := new MarketBot(["v1"]);
    bot.Start(v1);
    assert bot.calls == [SendReply(id, AskCount(CountKeyboard()))];
    CountKeyboardRoundTrip(2);
    bot.ChooseCount(v1, CountKeyboard()[2][0].data);
    bot.Collect(v1, "weed");
    assert bot.calls[|bot.calls| - 1] == SendReply(id, AskNextProduct);
    bot.Collect(v1, "pills");
    bot.Collect(v1, "acid");
    assert bot.SessionOf(id) == Draft(3, ["weed", "pills", "acid"]);
    assert bot.calls[|bot.calls| - 1] == SendReply(id, AskConfirm(ConfirmKeyboard()));
    outcome := bot.Publish(v1, today, false, Some(messageId));
    assert bot.SessionOf(id) == Empty;
    charged := bot.dailyCounter["v1"].count;
  }

  /** Pressing the amount button 1 and submitting one item. */
  method DraftOne(bot: MarketBot, user: User, item: string)
    requires bot.Valid()
    modifies bot
    ensures bot.Valid()
    ensures bot.SessionOf(user.id) == Draft(1, [item])
    ensures bot.dailyCounter == old(bot.dailyCounter) && bot.lastMessageId == old(bot.lastMessageId)
    ensures bot.issued == old(bot.issued)
  {
    SmallCounts();
    bot.ChooseCount(user, "count_1");
    assert bot.SessionOf(user.id) == Draft(1, []);
    var empty: seq<string> := [];
    assert empty + [item] == [item];
    bot.Collect(user, item);
  }

  /** A second listing on the same day attempts to delete the first one and
      takes its place whether or not the delete succeeded. */
  method RepublishReplaces(id: int, today: Day, first: int, second: int, deleted: bool)
      returns (attempt: Call, last: int)
    requires first != second
    ensures attempt == DeleteMessage(first, deleted)
    ensures last == second
  {
    var v1 := User(id, Some("V1"));
    VendorV1(id);
    var bot := new MarketBot(["v1"]);
    DraftOne(bot, v1, "lsd");
    assert EntryOf(bot.dailyCounter, "v1") == None;
    var o1 := bot.Publish(v1, today, false, Some(first));
    assert bot.lastMessageId == map["v1" := first];
    assert bot.dailyCounter == map["v1" := Entry(today, 1)];
    DraftOne(bot, v1, "koks");
    var n := |bot.calls|;
    assert EntryOf(bot.dailyCounter, "v1") == Some(Entry(today, 1));
    var o2 := bot.Publish(v1, today, deleted, Some(second));
    attempt := bot.calls[n];
    last := bot.lastMessageId["v1"];
  }

  /** With two posts already made today the next press of send is refused
      and leaves the draft in place. */
  method ThirdPostRefused(id: int, today: Day, first: int, second: int)
      returns (third: PublishOutcome, draft: Session)
    requires first != second
    ensures third == LimitReached
    ensures draft == Draft(1, ["mdma"])
  {
    var v1 := User(id, Some("V1"));
    VendorV1(id);
    var bot := new MarketBot(["v1"]);
    DraftOne(bot, v1, "lsd");
    assert EntryOf(bot.dailyCounter, "v1") == None;
    var o1 := bot.Publish(v1, today, true, Some(first));
    DraftOne(bot, v1, "koks");
    assert EntryOf(bot.dailyCounter, "v1") == Some(Entry(today, 1));
    var o2 := bot.Publish(v1, today, true, Some(second));
    DraftOne(bot, v1, "mdma");
    assert EntryOf(bot.dailyCounter, "v1") == Some(Entry(today, 2));
    third := bot.Publish(v1, today, true, None);
    draft := bot.SessionOf(id);
  }

  /** start during collection only offers the amount keyboard again: the
      draft collected so far is kept until an amount is chosen. */
  method RestartKeepsDraft(id: int) returns (kept: Session, reset: Session)
    ensures kept == Draft(3, ["weed"])
    ensures reset == Draft(2, [])
  {
    var v1 := User(id, Some("V1"));
    VendorV1(id);
    var bot := new MarketBot(["v1"]);
    SmallCounts();
    bot.ChooseCount(v1, "count_3");
    assert bot.SessionOf(id) == Draft(3, []);
    var empty: seq<string> := [];
    assert empty + ["weed"] == ["weed"];
    bot.Collect(v1, "weed");
    assert bot.SessionOf(id) == Draft(3, ["weed"]);
    label collected:
    bot.Start(v1);
    assert bot.sessions == old@collected(bot.sessions);
    kept := bot.SessionOf(id);
    bot.ChooseCount(v1, "count_2");
    assert bot.sessions == old@collected(bot.sessions)[id := Draft(2, [])];
    reset := bot.SessionOf(id);
  }
}
