/** Link preview cards: kept once per address, shown on every message that
    links it. */
module Previews {
  import opened Options
  import opened ThreadSummaries
  import opened ChannelLog
  import opened Transactions
  import opened ChannelRuns

  datatype Card = Card(title: string, description: string, siteName: string, image: Option<Id>)

  /** The addresses whose last fetch succeeded. */
  type Cache = map<string, Card>

  /** ListLinkPreviewsForMessages: the cards under one message. */
  function CardsOf(links: seq<Link>, cache: Cache): seq<(string, Card)> {
    if |links| == 0 then []
    else
      (if links[0].url in cache && !links[0].dismissed then [(links[0].url, cache[links[0].url])] else [])
      + CardsOf(links[1..], cache)
  }

  /** SetLinkPreview, after a fetch that succeeded or failed. */
  function Refetched(cache: Cache, url: string, card: Option<Card>): Cache {
    match card
    case Some(c) => cache[url := c]
    case None => cache - {url}
  }

  function Cached(cache: Cache, url: string): Option<Card> {
    if url in cache then Some(cache[url]) else None
  }

  predicate Shows(links: seq<Link>, url: string) {
    exists k :: 0 <= k < |links| && links[k] == Link(url, false)
  }

  lemma ShowsFirst(links: seq<Link>, url: string)
    requires |links| > 0
    ensures Shows(links, url) <==> links[0] == Link(url, false) || Shows(links[1..], url)
  {
    if Shows(links[1..], url) {
      var k :| 0 <= k < |links[1..]| && links[1..][k] == Link(url, false);
      assert links[k + 1] == Link(url, false);
    }
    if Shows(links, url) && links[0] != Link(url, false) {
      var k :| 0 <= k < |links| && links[k] == Link(url, false);
      assert links[1..][k - 1] == Link(url, false);
    }
  }

  lemma {:induction false} CardsGrow(links: seq<Link>, cache: Cache, url: string, card: Option<Card>)
    ensures var before, after := |CardsOf(links, cache)|, |CardsOf(links, Refetched(cache, url, card))|;
            && (card.Some? ==> before <= after && (url !in cache && Shows(links, url) ==> before < after))
            && (card.None? ==> before >= after && (url in cache && Shows(links, url) ==> before > after))
  {
    if |links| > 0 {
      ShowsFirst(links, url);
      CardsGrow(links[1..], cache, url, card);
    }
  }

  /** A fetch changes the cards of exactly the messages that show a card for
      its address, or now do, and whose card it changed. */
  lemma {:induction false} CardsSame(links: seq<Link>, cache: Cache, url: string, card: Option<Card>)
    ensures CardsOf(links, Refetched(cache, url, card)) == CardsOf(links, cache)
            <==> Cached(cache, url) == card || !Shows(links, url)
  {
    var after := Refetched(cache, url, card);
    CardsGrow(links, cache, url, card);
    if |links| > 0 {
      ShowsFirst(links, url);
      CardsSame(links[1..], cache, url, card);
      if links[0].url != url || links[0].dismissed {
        var head := if links[0].url in cache && !links[0].dismissed then [(links[0].url, cache[links[0].url])] else [];
        assert CardsOf(links, cache) == head + CardsOf(links[1..], cache);
        assert CardsOf(links, after) == head + CardsOf(links[1..], after);
        Cancel(head, CardsOf(links[1..], cache), CardsOf(links[1..], after));
      } else if url in cache && card.Some? {
        assert CardsOf(links, cache)[0] == (url, cache[url]);
        assert CardsOf(links, after)[0] == (url, card.value);
        Cancel([(url, cache[url])], CardsOf(links[1..], cache), CardsOf(links[1..], after));
      } else if url !in cache && card.None? {
        assert after == cache;
      }
    }
  }

  lemma Cancel<T>(head: seq<T>, a: seq<T>, b: seq<T>)
    ensures head + a == head + b <==> a == b
  {
    if head + a == head + b {
      assert a == (head + a)[|head|..];
      assert b == (head + b)[|head|..];
    }
  }

  /** unfurlLater's two writes: the address's card, then a stamp on the message
      that asked, unless it was deleted meanwhile; then nothing is stamped. Any
      other message keeps its row and its seq either way; so its cards change
      with no position to say so exactly when it shows that address and the
      card is not what it was. */
  lemma RefetchStampsOneMessage(log: Log, cache: Cache, asker: Id, url: string, card: Option<Card>, other: Id)
    requires other in log.rows && other != asker
    ensures var links := log.rows[other].extras.links;
            && (PreviewedTx(log, asker).Committed? <==> IsLive(log, asker))
            && (match PreviewedTx(log, asker)
                case Committed(after) =>
                  && other in after.rows && ViewOf(after, other) == ViewOf(log, other)
                  && after.seqNo == log.seqNo + 1 && after.stamps == log.stamps + [asker]
                  && after.rows == log.rows[asker := log.rows[asker].(seqNo := after.seqNo)]
                case RolledBack(_) => true)
            && (CardsOf(links, Refetched(cache, url, card)) != CardsOf(links, cache)
                <==> Shows(links, url) && Cached(cache, url) != card)
  {
    CardsSame(log.rows[other].extras.links, cache, url, card);
  }

  const URL := "https://example.org"

  /** Two messages link the same address and a card is fetched for one: what
      the other shows changes, and nothing of the other's row does. */
  lemma OtherCardChanges() returns (worlds: seq<World>, events: seq<Event>, card: Card)
    ensures IsRun(worlds, events) && |events| > 0 && events[|events| - 1] == Run(Previewed(2), 3)
    ensures var before, after := worlds[|events| - 1].log, worlds[|events|].log;
            && 1 in before.rows && 1 in after.rows && ViewOf(after, 1) == ViewOf(before, 1)
            && after.seqNo == before.seqNo + 1 && after.stamps == before.stamps + [2]
            && var links := after.rows[1].extras.links;
               CardsOf(links, map[]) == [] && CardsOf(links, Refetched(map[], URL, Some(card))) == [(URL, card)]
  {
    hide IsRun;
    card := Card("A page", "", "", None);
    var send := Send(AUTHOR, None, false, GREETING, NO_EXTRAS.(links := [Link(URL, false)]));
    worlds, events := Started();
    worlds, events := Asked(worlds, events, send, 1);
    worlds, events := Asked(worlds, events, send, 2);
    var log, fetched := worlds[|events|].log, Previewed(2);
    worlds, events := RunOn(worlds, events, Check(fetched), World(log, {fetched}));
    worlds, events := RunOn(worlds, events, Run(fetched, 3), World(Stamp(log, 2), {}));
    var links := worlds[|events|].log.rows[1].extras.links;
    assert links == [Link(URL, false)];
    assert CardsOf(links[1..], map[]) == [] && CardsOf(links[1..], map[URL := card]) == [];
  }
}
