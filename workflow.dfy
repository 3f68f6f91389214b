/** The listing workflow of bot.py with the Telegram transport abstracted:
    the per-user session (context.user_data), the module-level maps
    daily_counter and last_message_id, and the handlers start, choose_count,
    collect, publish and cancel that drive them. Every call the handlers make
    into the messaging library is appended to a log; the outcome of a delete
    and the message id a send returns are inputs. */
module Workflow {
  import opened Wrappers
  import opened CaseMap
  import opened Stylizer
  import opened Icons
  import opened Keyboard
  import opened Quota

  /** The account behind an update: its numeric id and its optional username. */
  datatype User = User(id: int, username: Option<string>)

  /** context.user_data of one user: empty, or {"count": count, "products": products}. */
  datatype Session = Empty | Draft(count: int, products: seq<string>)

  /** The replies the handlers send back to the user. */
  datatype Reply =
    | NoPermission              // permission denied, from start
    | AskCount(markup: Markup)  // "how many items?" with the amount keyboard
    | AskProduct                // first item prompt, from choose_count
    | AskNextProduct            // next item prompt, from collect
    | AskConfirm(markup: Markup)  // "publish?" with the confirm / cancel keyboard
    | DailyLimitReached         // refusal from the quota
    | Published                 // success, from publish
    | Cancelled                 // from cancel

  /** The part of the listing caption that depends on the draft: one line per
      product and the vendor's handle for contact. */
  datatype Caption = Caption(lines: string, contact: string)

  /** A call into the messaging library. */
  datatype Call =
    | SendReply(chat: int, reply: Reply)
    | DeleteMessage(messageId: int, deleted: bool)
    | SendPhoto(caption: Caption, sent: Option<int>)

  /** How a press of the send button ends. NoUsername, NoDraft and SendFailed
      are the points where the handler raises. */
  datatype PublishOutcome = NoUsername | LimitReached | NoDraft | SendFailed | Posted(messageId: int)

  /** The start gate: a non-empty username whose lower-cased form is listed.
      A vendor's handle, the key publish uses, is then a listed name. */
  predicate IsVendor(user: User, vendorNames: seq<string>)
    ensures IsVendor(user, vendorNames) ==> user.username.Some? && Handle(user) in vendorNames
  {
    user.username.Some? && user.username.value != "" && LowerStr(user.username.value) in vendorNames
  }

  /** The key publish uses for the quota and the last message. */
  function Handle(user: User): (h: string)
    requires user.username.Some?
    ensures |h| == |user.username.value|
    ensures forall i :: 0 <= i < |h| ==> !IsUpper(h[i])
  {
    LowerStr(user.username.value)
  }

  /** The caption line of one product: its icon, a space, its stylized name
      and the line break; the icon comes first and the line is one character
      longer per character of the name. */
  function ProductLine(p: string): (r: string)
    ensures |r| == |PickIcon(p)| + |p| + 2
    ensures r[..|PickIcon(p)|] == PickIcon(p) && r[|r| - 1] == '\n'
  {
    PickIcon(p) + " " + Stylize(p) + "\n"
  }

  /** The caption lines of the products, in draft order; a non-empty draft
      ends in a line break. */
  function Lines(products: seq<string>): (r: string)
    ensures |products| == 0 <==> r == ""
    ensures |products| > 0 ==> r[|r| - 1] == '\n'
  {
    if |products| == 0 then ""
    else Lines(products[..|products| - 1]) + ProductLine(products[|products| - 1])
  }

  /** The listing lists the products in order: the lines of a draft extended by
      one product are the old lines followed by that product's line. */
  lemma {:induction false} LinesConcat(a: seq<string>, b: seq<string>)
    ensures Lines(a + b) == Lines(a) + Lines(b)
    decreases |b|
  {
    if |b| == 0 {
      assert a + b == a;
    } else {
      var b' := b[..|b| - 1];
      assert (a + b)[..|a + b| - 1] == a + b';
      assert (a + b)[|a + b| - 1] == b[|b| - 1];
      LinesConcat(a, b');
    }
  }

  /** The caption lines of a draft, built as the source's loop builds them. */
  method ComposeLines(products: seq<string>) returns (text: string)
    ensures text == Lines(products)
  {
    text := "";
    for i := 0 to |products|
      invariant text == Lines(products[..i])
    {
      var icon := PickIconScan(products[i]);
      var styled := StylizeText(products[i]);
      assert products[..i + 1][..i] == products[..i];
      text := text + icon + " " + styled + "\n";
    }
    assert products[..|products|] == products;
  }

  function EntryOf(counter: map<string, Entry>, h: string): (e: Option<Entry>) {
    if h in counter then Some(counter[h]) else None
  }

  class MarketBot {
    /** VENDOR_NAMES, already lower-cased and split. */
    const vendorNames: seq<string>
    /** context.user_data for each user id. */
    var sessions: map<int, Session>
    /** daily_counter */
    var dailyCounter: map<string, Entry>
    /** last_message_id */
    var lastMessageId: map<string, int>
    /** The calls made into the messaging library, oldest first. */
    var calls: seq<Call>
    /** Every message id the channel has handed out to this bot. */
    ghost var issued: set<int>

    /** The stored counts stay within the quota. */
    ghost predicate QuotaInvariant()
      reads this
    {
      forall h :: h in dailyCounter ==> WithinQuota(Some(dailyCounter[h]))
    }

    /** The last-message map points at messages the bot sent, no two vendors
        at the same one. */
    ghost predicate ListingInvariant()
      reads this
    {
      lastMessageId.Values <= issued &&
      forall h, g :: h in lastMessageId && g in lastMessageId && h != g ==> lastMessageId[h] != lastMessageId[g]
    }

    ghost predicate Valid()
      reads this
    {
      QuotaInvariant() && ListingInvariant()
    }

    /** A user without user_data has an empty one. */
    function SessionOf(id: int): (s: Session)
      reads this
    {
      if id in sessions then sessions[id] else Empty
    }

    constructor (vendorNames: seq<string>)
      ensures Valid() && this.vendorNames == vendorNames
      ensures sessions == map[] && dailyCounter == map[] && lastMessageId == map[]
      ensures calls == [] && issued == {}
    {
      this.vendorNames := vendorNames;
      sessions, dailyCounter, lastMessageId := map[], map[], map[];
      calls, issued := [], {};
    }

    /** start: deny a user who is not a vendor, otherwise offer the amount
        keyboard. Neither branch touches any state. */
    method Start(user: User)
      requires Valid()
      modifies this`calls
      ensures Valid()
      ensures calls == old(calls) +
              [SendReply(user.id, if IsVendor(user, vendorNames) then AskCount(CountKeyboard()) else NoPermission)]
      ensures sessions == old(sessions) && dailyCounter == old(dailyCounter) && lastMessageId == old(lastMessageId)
    {
      if !IsVendor(user, vendorNames) {
        calls := calls + [SendReply(user.id, NoPermission)];
        return;
      }
      calls := calls + [SendReply(user.id, AskCount(CountKeyboard()))];
    }

    /** choose_count: a parsable count starts a fresh draft of that many
        items; data that does not parse raises before anything changes. */
    method ChooseCount(user: User, data: string)
      requires Valid()
      modifies this`sessions, this`calls
      ensures Valid()
      ensures ParseCount(data).Some? ==>
              sessions == old(sessions)[user.id := Draft(ParseCount(data).value, [])] &&
              calls == old(calls) + [SendReply(user.id, AskProduct)]
      ensures ParseCount(data).None? ==> sessions == old(sessions) && calls == old(calls)
      ensures dailyCounter == old(dailyCounter) && lastMessageId == old(lastMessageId)
    {
      var count := ParseCount(data);
      if count.None? {
        return;
      }
      sessions := sessions[user.id := Draft(count.value, [])];
      calls := calls + [SendReply(user.id, AskProduct)];
    }

    /** collect: ignored without a draft; otherwise the text is appended and
        the confirm keyboard is offered once the draft holds count items or more. */
    method Collect(user: User, text: string)
      requires Valid()
      modifies this`sessions, this`calls
      ensures Valid()
      ensures old(SessionOf(user.id)).Empty? ==> sessions == old(sessions) && calls == old(calls)
      ensures old(SessionOf(user.id)).Draft? ==>
              var d := old(SessionOf(user.id));
              sessions == old(sessions)[user.id := Draft(d.count, d.products + [text])] &&
              calls == old(calls) +
                [SendReply(user.id, if |d.products| + 1 < d.count then AskNextProduct else AskConfirm(ConfirmKeyboard()))]
      ensures dailyCounter == old(dailyCounter) && lastMessageId == old(lastMessageId)
    {
      var session := SessionOf(user.id);
      if session.Empty? {
        return;
      }
      var products := session.products + [text];
      sessions := sessions[user.id := Draft(session.count, products)];
      if |products| < session.count {
        calls := calls + [SendReply(user.id, AskNextProduct)];
        return;
      }
      calls := calls + [SendReply(user.id, AskConfirm(ConfirmKeyboard()))];
    }

    /** cancel: the session is cleared. */
    method Cancel(user: User)
      requires Valid()
      modifies this`sessions, this`calls
      ensures Valid()
      ensures sessions == old(sessions)[user.id := Empty]
      ensures calls == old(calls) + [SendReply(user.id, Cancelled)]
      ensures dailyCounter == old(dailyCounter) && lastMessageId == old(lastMessageId)
    {
      sessions := sessions[user.id := Empty];
      calls := calls + [SendReply(user.id, Cancelled)];
    }

    /** publish, pressed on day today. A sent message id, when there is one,
        is one the channel never handed out before. */
    method Publish(user: User, today: Day, deleted: bool, sent: Option<int>) returns (outcome: PublishOutcome)
      requires Valid()
      requires sent.Some? ==> sent.value !in issued
      modifies this`sessions, this`dailyCounter, this`lastMessageId, this`calls, this`issued
      ensures Valid()
      ensures issued == if outcome.Posted? then old(issued) + {outcome.messageId} else old(issued)
      // no username: the handler raises before anything changes
      ensures user.username.None? ==>
              outcome == NoUsername && dailyCounter == old(dailyCounter) &&
              calls == old(calls) && sessions == old(sessions) && lastMessageId == old(lastMessageId)
      // otherwise the quota entry is refreshed and charged
      ensures user.username.Some? ==>
              dailyCounter == old(dailyCounter)[Handle(user) := Charge(EntryOf(old(dailyCounter), Handle(user)), today)]
      // refused: only the refusal is sent, nothing else changes
      ensures user.username.Some? && !Admits(Refresh(EntryOf(old(dailyCounter), Handle(user)), today)) ==>
              outcome == LimitReached && dailyCounter == old(dailyCounter) &&
              calls == old(calls) + [SendReply(user.id, DailyLimitReached)] &&
              sessions == old(sessions) && lastMessageId == old(lastMessageId)
      // admitted without a draft: the post is charged, then reading the draft raises
      ensures user.username.Some? && Admits(Refresh(EntryOf(old(dailyCounter), Handle(user)), today)) &&
              old(SessionOf(user.id)).Empty? ==>
              outcome == NoDraft && calls == old(calls) &&
              sessions == old(sessions) && lastMessageId == old(lastMessageId)
      // admitted with a draft: delete the old message if any, then send the new one
      ensures user.username.Some? && Admits(Refresh(EntryOf(old(dailyCounter), Handle(user)), today)) &&
              old(SessionOf(user.id)).Draft? ==>
              var h := Handle(user);
              var caption := Caption(Lines(old(SessionOf(user.id)).products), h);
              var attempt := if h in old(lastMessageId) then [DeleteMessage(old(lastMessageId)[h], deleted)] else [];
              if sent.None? then
                outcome == SendFailed && calls == old(calls) + attempt + [SendPhoto(caption, None)] &&
                sessions == old(sessions) && lastMessageId == old(lastMessageId)
              else
                outcome == Posted(sent.value) &&
                calls == old(calls) + attempt + [SendPhoto(caption, sent), SendReply(user.id, Published)] &&
                sessions == old(sessions)[user.id := Empty] &&
                lastMessageId == old(lastMessageId)[h := sent.value]
    {
      if user.username.None? {
        return NoUsername;
      }
      var h := LowerStr(user.username.value);
      var admitted := ChargeQuota(h, today);
      if !admitted {
        calls := calls + [SendReply(user.id, DailyLimitReached)];
        return LimitReached;
      }
      var session := SessionOf(user.id);
      if session.Empty? {
        return NoDraft;
      }
      var text := ComposeLines(session.products);
      var posted := ReplaceListing(h, Caption(text, h), deleted, sent);
      if !posted {
        return SendFailed;
      }
      sessions := sessions[user.id := Empty];
      calls := calls + [SendReply(user.id, Published)];
      return Posted(sent.value);
    }

    /** The quota code of publish for key h: reset a missing or stale entry,
        refuse at MaxDaily, otherwise charge one post. */
    method ChargeQuota(h: string, today: Day) returns (admitted: bool)
      requires QuotaInvariant()
      modifies this`dailyCounter
      ensures QuotaInvariant()
      ensures admitted == Admits(Refresh(EntryOf(old(dailyCounter), h), today))
      ensures dailyCounter == old(dailyCounter)[h := Charge(EntryOf(old(dailyCounter), h), today)]
      ensures !admitted ==> dailyCounter == old(dailyCounter)
    {
      ghost var before := EntryOf(dailyCounter, h);
      ChargeSpec(before, today);
      if h !in dailyCounter {
        dailyCounter := dailyCounter[h := Entry(today, 0)];
      }
      if dailyCounter[h].date != today {
        dailyCounter := dailyCounter[h := Entry(today, 0)];
      }
      if dailyCounter[h].count >= MaxDaily {
        return false;
      }
      dailyCounter := dailyCounter[h := dailyCounter[h].(count := dailyCounter[h].count + 1)];
      return true;
    }

    /** The replacement code of publish for key h: attempt to delete the
        previous listing, whatever the outcome send the new one, and on a
        successful send record its id in place of the old one. */
    method ReplaceListing(h: string, caption: Caption, deleted: bool, sent: Option<int>) returns (posted: bool)
      requires ListingInvariant()
      requires sent.Some? ==> sent.value !in issued
      modifies this`lastMessageId, this`calls, this`issued
      ensures ListingInvariant()
      ensures posted == sent.Some?
      ensures calls == old(calls) +
              (if h in old(lastMessageId) then [DeleteMessage(old(lastMessageId)[h], deleted)] else []) +
              [SendPhoto(caption, sent)]
      ensures lastMessageId == if sent.Some? then old(lastMessageId)[h := sent.value] else old(lastMessageId)
      ensures issued == if sent.Some? then old(issued) + {sent.value} else old(issued)
    {
      if h in lastMessageId {
        calls := calls + [DeleteMessage(lastMessageId[h], deleted)];
      }
      calls := calls + [SendPhoto(caption, sent)];
      if sent.None? {
        return false;
      }
      lastMessageId := lastMessageId[h := sent.value];
      issued := issued + {sent.value};
      return true;
    }
  }
}
