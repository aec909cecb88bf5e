/** Who a new message alerts, and as what: resolveMentions, and the order in
    which recordActivity tells people. */
module Alerts {
  import opened Options

  type Person = nat

  // ---- resolveMentions ---------------------------------------------------------

  /** What a message's kept tokens and everyone-words ask for. */
  datatype Asked = Asked(
    people: seq<Person>, groupMembers: seq<Person>, readers: seq<Person>, entireChannel: bool, here: bool)

  datatype Reached = Reached(people: seq<Person>, entireChannel: bool, here: bool)

  /** Those of some people who pass, in order. */
  function Among(people: seq<Person>, passing: set<Person>): (some: seq<Person>)
    ensures forall p :: p in some <==> p in people && p in passing
    ensures Distinct(people) ==> Distinct(some)
  {
    if |people| == 0 then []
    else
      var last := people[|people| - 1];
      Among(people[..|people| - 1], passing) + if last in passing then [last] else []
  }

  /** Adds people to a list, each once and none already reached. */
  method Reach(people: seq<Person>, reached: set<Person>, list: seq<Person>)
    returns (nowReached: set<Person>, longer: seq<Person>)
    requires Distinct(list) && forall p :: p in list ==> p in reached
    ensures nowReached == reached + set p | p in people
    ensures Distinct(longer) && list <= longer
    ensures forall p :: p in longer <==> p in list || (p in people && p !in reached)
    ensures forall p :: p in longer ==> p in nowReached
  {
    nowReached, longer := reached, list;
    for k := 0 to |people|
      invariant nowReached == reached + set p | p in people[..k]
      invariant Distinct(longer) && list <= longer
      invariant forall p :: p in longer <==> p in list || (p in people[..k] && p !in reached)
      invariant forall p :: p in longer ==> p in nowReached
    {
      var p := people[k];
      assert people[..k + 1] == people[..k] + [p];
      if p !in nowReached {
        nowReached, longer := nowReached + {p}, longer + [p];
      }
    }
    assert people[..|people|] == people;
  }

  /** The author is never told, nobody twice; an everyone-word that applies
      decides alone, @channel before @here, and never in a direct message. */
  method ResolveMentions(asked: Asked, author: Person, isDm: bool, mayNotify: bool, online: Option<set<Person>>)
    returns (reached: Reached)
    requires Distinct(asked.readers)
    ensures Distinct(reached.people) && author !in reached.people
    ensures var everyone := (asked.entireChannel || asked.here) && !isDm && mayNotify;
            && reached.entireChannel == (everyone && asked.entireChannel)
            && reached.here == (everyone && !asked.entireChannel)
            && (everyone && asked.entireChannel ==>
                  forall p :: p in reached.people <==> p in asked.readers && p != author)
            && (everyone && !asked.entireChannel ==>
                  forall p :: p in reached.people <==>
                    p in asked.readers && p != author && online.Some? && p in online.value)
            && (!everyone ==>
                  forall p :: p in reached.people <==> p != author && (p in asked.people || p in asked.groupMembers))
  {
    if (asked.entireChannel || asked.here) && !isDm && mayNotify {
      var recipients := asked.readers;
      if !asked.entireChannel {
        recipients := if online.None? then [] else Among(asked.readers, online.value);
      }
      var people: seq<Person> := [];
      for k := 0 to |recipients|
        invariant Distinct(people) && forall p :: p in people <==> p in recipients[..k] && p != author
      {
        var p := recipients[k];
        assert recipients[..k + 1] == recipients[..k] + [p];
        assert p !in recipients[..k];
        if p != author {
          people := people + [p];
        }
      }
      assert recipients[..|recipients|] == recipients;
      return Reached(people, asked.entireChannel, !asked.entireChannel);
    }
    var told, people := Reach(asked.people, {author}, []);
    if |asked.groupMembers| > 0 {
      told, people := Reach(asked.groupMembers, told, people);
    }
    return Reached(people, false, false);
  }

  // ---- recordActivity --------------------------------------------------------------

  /** Whom each step of recordActivity hands to notify. */
  datatype Handed = Handed(mentions: seq<Person>, reply: seq<Person>, thread: seq<Person>, dm: seq<Person>)

  function Times(people: seq<Person>, p: Person): nat {
    multiset(people)[p]
  }

  /** How often a message alerts a person. */
  function Alerts(handed: Handed, p: Person): nat {
    Times(handed.mentions, p) + Times(handed.reply, p) + Times(handed.thread, p) + Times(handed.dm, p)
  }

  method NotTold(people: seq<Person>, told: set<Person>) returns (recipients: seq<Person>)
    ensures forall p :: p in recipients <==> p in people && p !in told
    ensures Distinct(people) ==> Distinct(recipients)
  {
    recipients := [];
    for k := 0 to |people|
      invariant forall p :: p in recipients <==> p in people[..k] && p !in told
      invariant Distinct(people) ==> Distinct(recipients)
    {
      assert people[..k + 1] == people[..k] + [people[k]];
      assert Distinct(people) ==> people[k] !in people[..k];
      if people[k] !in told {
        recipients := recipients + [people[k]];
      }
    }
    assert people[..|people|] == people;
  }

  /** One alert each: whoever is mentioned, quoted, in the thread or in the
      conversation is told once, as the first of those that holds, and the
      author never. thread and dm are their people, where the message is in
      one. */
  method RecordActivity(author: Person, mentioned: seq<Person>, parent: Option<Person>,
                        thread: Option<seq<Person>>, dm: Option<seq<Person>>) returns (handed: Handed)
    requires Distinct(mentioned) && author !in mentioned
    requires (thread.Some? ==> Distinct(thread.value)) && (dm.Some? ==> Distinct(dm.value))
    ensures forall p :: Alerts(handed, p) <= 1
    ensures forall p :: Alerts(handed, p) == 1 <==>
      && p != author
      && (p in mentioned || parent == Some(p) || (thread.Some? && p in thread.value) || (dm.Some? && p in dm.value))
    ensures forall p :: p in handed.mentions <==> p in mentioned
    ensures forall p :: p in handed.reply <==> parent == Some(p) && p != author && p !in mentioned
    ensures forall p :: p in handed.thread <==>
      thread.Some? && p in thread.value && p != author && p !in mentioned && parent != Some(p)
    ensures forall p :: p in handed.dm <==>
      && dm.Some? && p in dm.value && p != author && p !in mentioned && parent != Some(p)
      && !(thread.Some? && p in thread.value)
  {
    hide Alerts;
    var told := {author} + set p | p in mentioned;
    var reply, inThread, inDm: seq<Person> := [], [], [];
    if parent.Some? {
      if parent.value != author && parent.value !in mentioned {
        reply := [parent.value];
      }
      told := told + {parent.value};
    }
    if thread.Some? {
      inThread := NotTold(thread.value, told);
      told := told + set p | p in inThread;
    }
    if dm.Some? {
      inDm := NotTold(dm.value, told);
    }
    handed := Handed(mentioned, reply, inThread, inDm);
    forall p ensures Alerts(handed, p) == Told(handed, p) {
      Counted(handed, p);
    }
  }

  function Told(handed: Handed, p: Person): nat {
    (if p in handed.mentions then 1 else 0) + (if p in handed.reply then 1 else 0)
    + (if p in handed.thread then 1 else 0) + (if p in handed.dm then 1 else 0)
  }

  lemma Counted(handed: Handed, p: Person)
    requires Distinct(handed.mentions) && Distinct(handed.reply) && Distinct(handed.thread) && Distinct(handed.dm)
    ensures Alerts(handed, p) == Told(handed, p)
  {
    OnceEach(handed.mentions, p);
    OnceEach(handed.reply, p);
    OnceEach(handed.thread, p);
    OnceEach(handed.dm, p);
  }
}
