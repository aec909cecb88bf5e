/** The summary under a thread's root. A send adds to it (RecordThreadReply);
    a delete counts it again from the replies that stand (RecomputeThread). */
module ThreadSummaries {
  import opened Options

  type Id = nat
  type Person = nat

  const RECENT_AUTHORS: nat := 3

  datatype Summary = Summary(count: nat, last: Id, recent: seq<Person>)

  /** The authors of the replies, the one who replied last first. */
  function AuthorsByNewest(authorOf: map<Id, Person>, replies: set<Id>): (people: seq<Person>)
    requires replies <= authorOf.Keys
    ensures forall p :: p in people ==> exists r :: r in replies && authorOf[r] == p
    decreases |replies|
  {
    if replies == {} then []
    else
      var newest := Max(replies);
      var others := ByOthers(authorOf, replies, authorOf[newest]);
      assert newest !in others && others < replies;
      SubsetSize(others, replies);
      [authorOf[newest]] + AuthorsByNewest(authorOf, others)
  }

  function ByOthers(authorOf: map<Id, Person>, replies: set<Id>, author: Person): set<Id>
    requires replies <= authorOf.Keys
  {
    set r | r in replies && authorOf[r] != author
  }

  function FirstThree(people: seq<Person>): seq<Person> {
    FirstOf(RECENT_AUTHORS, people)
  }

  /** RecomputeThread's answer over the live replies. */
  function Recounted(authorOf: map<Id, Person>, replies: set<Id>): Summary
    requires replies <= authorOf.Keys && replies != {}
  {
    Summary(|replies|, Max(replies), FirstThree(AuthorsByNewest(authorOf, replies)))
  }

  function Without(people: seq<Person>, person: Person): (rest: seq<Person>)
    ensures person !in rest
    ensures forall p :: p in rest <==> p in people && p != person
  {
    if |people| == 0 then []
    else if people[0] == person then Without(people[1..], person)
    else [people[0]] + Without(people[1..], person)
  }

  /** RecordThreadReply: a first reply, or one more. */
  function Recorded(summary: Option<Summary>, reply: Id, author: Person): Summary {
    match summary
    case None => Summary(1, reply, [author])
    case Some(s) => Summary(s.count + 1, reply, FirstThree([author] + Without(s.recent, author)))
  }

  lemma {:induction false} AuthorsDistinct(authorOf: map<Id, Person>, replies: set<Id>)
    requires replies <= authorOf.Keys
    ensures Distinct(AuthorsByNewest(authorOf, replies))
    decreases |replies|
  {
    if replies != {} {
      var newest := Max(replies);
      var others := ByOthers(authorOf, replies, authorOf[newest]);
      assert newest !in others && others < replies;
      SubsetSize(others, replies);
      AuthorsDistinct(authorOf, others);
      assert authorOf[newest] !in AuthorsByNewest(authorOf, others);
    }
  }

  lemma MaxKept(s: set<nat>, t: set<nat>)
    requires t <= s && s != {} && Max(s) in t
    ensures Max(t) == Max(s)
  {
  }

  /** Leaving an author's replies out leaves the author out. */
  lemma {:induction false} OthersByNewest(authorOf: map<Id, Person>, replies: set<Id>, author: Person)
    requires replies <= authorOf.Keys
    ensures AuthorsByNewest(authorOf, ByOthers(authorOf, replies, author))
            == Without(AuthorsByNewest(authorOf, replies), author)
    decreases |replies|
  {
    var kept := ByOthers(authorOf, replies, author);
    if replies != {} {
      var newest := Max(replies);
      var first := authorOf[newest];
      var others := ByOthers(authorOf, replies, first);
      assert newest !in others && others < replies;
      SubsetSize(others, replies);
      OthersByNewest(authorOf, others, author);
      if first == author {
        assert others == kept;
        NotThere(AuthorsByNewest(authorOf, others), author);
      } else {
        MaxKept(replies, kept);
        assert ByOthers(authorOf, kept, first) == ByOthers(authorOf, others, author);
      }
    } else {
      assert kept == {};
    }
  }

  lemma {:induction false} NotThere(people: seq<Person>, person: Person)
    requires person !in people
    ensures Without(people, person) == people
  {
    if |people| > 0 {
      NotThere(people[1..], person);
    }
  }

  /** The three kept are enough: whoever is dropped past them could not come
      back among the three after one more reply. */
  lemma {:induction false} ThreeAreEnough(people: seq<Person>, author: Person, n: nat)
    requires Distinct(people) && n <= |people|
    ensures Without(people[..n], author) <= Without(people, author)
    ensures |Without(people[..n], author)| >= n - 1
    ensures author !in people[..n] ==> Without(people[..n], author) == people[..n]
  {
    if n > 0 {
      var rest := people[1..];
      assert people[..n][1..] == rest[..n - 1];
      if people[0] == author {
        NotThere(rest, author);
        NotThere(rest[..n - 1], author);
      } else {
        ThreeAreEnough(rest, author, n - 1);
      }
    }
  }

  lemma SameThree(people: seq<Person>, author: Person)
    requires Distinct(people)
    ensures FirstThree([author] + Without(FirstThree(people), author)) == FirstThree([author] + Without(people, author))
  {
    var n := |FirstThree(people)|;
    assert FirstThree(people) == people[..n];
    ThreeAreEnough(people, author, n);
    var kept, all := Without(people[..n], author), Without(people, author);
    assert n < RECENT_AUTHORS ==> people[..n] == people;
    assert kept == all[..|kept|];
  }

  lemma NewestFirst(authorOf: map<Id, Person>, replies: set<Id>, reply: Id, author: Person)
    requires replies <= authorOf.Keys && forall r :: r in replies ==> r < reply
    ensures replies + {reply} <= authorOf[reply := author].Keys
    ensures Max(replies + {reply}) == reply
    ensures AuthorsByNewest(authorOf[reply := author], replies + {reply})
            == [author] + Without(AuthorsByNewest(authorOf, replies), author)
  {
    hide AuthorsByNewest, Without;
    var after, all := authorOf[reply := author], replies + {reply};
    var others := ByOthers(authorOf, replies, author);
    assert Max(all) == reply && after[reply] == author;
    assert ByOthers(after, all, author) == others;
    SameAuthors(authorOf, after, others);
    OthersByNewest(authorOf, replies, author);
    Unfolded(after, all);
  }

  lemma Unfolded(authorOf: map<Id, Person>, replies: set<Id>)
    requires replies <= authorOf.Keys && replies != {}
    ensures var first := authorOf[Max(replies)];
            AuthorsByNewest(authorOf, replies) == [first] + AuthorsByNewest(authorOf, ByOthers(authorOf, replies, first))
  {
  }

  /** One more reply, newer than all: adding to the summary writes what
      counting the replies again would. */
  lemma RecordedIsRecounted(authorOf: map<Id, Person>, replies: set<Id>, reply: Id, author: Person)
    requires replies <= authorOf.Keys && forall r :: r in replies ==> r < reply
    ensures replies + {reply} <= authorOf[reply := author].Keys
    ensures var before := if replies == {} then None else Some(Recounted(authorOf, replies));
            Recorded(before, reply, author) == Recounted(authorOf[reply := author], replies + {reply})
  {
    hide AuthorsByNewest;
    NewestFirst(authorOf, replies, reply, author);
    assert reply !in replies;
    if replies == {} {
      Empty(authorOf);
    } else {
      AuthorsDistinct(authorOf, replies);
      SameThree(AuthorsByNewest(authorOf, replies), author);
    }
  }

  lemma Empty(authorOf: map<Id, Person>)
    ensures AuthorsByNewest(authorOf, {}) == []
  {
  }

  lemma {:induction false} SameAuthors(authorOf: map<Id, Person>, other: map<Id, Person>, replies: set<Id>)
    requires replies <= authorOf.Keys && replies <= other.Keys
    requires forall r :: r in replies ==> authorOf[r] == other[r]
    ensures AuthorsByNewest(authorOf, replies) == AuthorsByNewest(other, replies)
    decreases |replies|
  {
    if replies != {} {
      var newest := Max(replies);
      var others := ByOthers(authorOf, replies, authorOf[newest]);
      assert others == ByOthers(other, replies, other[newest]);
      assert newest !in others && others < replies;
      SubsetSize(others, replies);
      SameAuthors(authorOf, other, others);
    }
  }
}
