/**
 The topic consumers of src/consumers: a table from the hash of a name to the consumer, filled
 by the consumers' constructors. The table keeps what was registered first under a hash.
 */
module Registry {
  import opened Options
  import opened Joaat

  /** A consumer object, known by its identity and its name. */
  datatype Consumer = Consumer(id: nat, name: Str)

  /** joaat_t, as the key of the table. */
  datatype Key = Key(hash: bv32)

  /** The first of the registered consumers whose name has hash h. */
  function First(cs: seq<Consumer>, h: bv32): Option<Consumer> {
    if cs == [] then None
    else if Hash(cs[0].name) == h then Some(cs[0])
    else First(cs[1..], h)
  }

  /** Place i holds the first name with hash h. */
  ghost predicate FirstAt(cs: seq<Consumer>, i: nat, h: bv32) {
    && i < |cs| && Hash(cs[i].name) == h
    && forall j :: 0 <= j < i ==> Hash(cs[j].name) != h
  }

  lemma {:induction false} FirstIs(cs: seq<Consumer>, h: bv32, i: nat)
    requires FirstAt(cs, i, h)
    ensures First(cs, h) == Some(cs[i])
    decreases i
  {
    hide Hash;
    if i > 0 {
      assert cs[0] != cs[i];
      assert forall j :: 0 <= j < i - 1 ==> cs[1..][j] == cs[j + 1];
      FirstIs(cs[1..], h, i - 1);
    }
  }

  /** A hash finds somebody exactly if some place is the first with it. */
  lemma {:induction false} FoundAt(cs: seq<Consumer>, h: bv32) returns (i: nat)
    ensures First(cs, h).Some? ==> FirstAt(cs, i, h)
    ensures First(cs, h).None? ==> forall j :: 0 <= j < |cs| ==> Hash(cs[j].name) != h
  {
    hide Hash;
    i := 0;
    if cs != [] && Hash(cs[0].name) != h {
      var k := FoundAt(cs[1..], h);
      i := k + 1;
      assert forall j :: 0 < j < |cs| ==> cs[j] == cs[1..][j - 1];
    }
  }

  lemma {:induction false} FirstAppend(cs: seq<Consumer>, c: Consumer, h: bv32)
    ensures First(cs + [c], h)
         == if First(cs, h).None? && Hash(c.name) == h then Some(c) else First(cs, h)
    decreases |cs|
  {
    hide Hash;
    if cs == [] {
      assert (cs + [c])[1..] == [];
    } else {
      assert (cs + [c])[1..] == cs[1..] + [c];
      FirstAppend(cs[1..], c, h);
    }
  }

  /** The table: find, and insert, which leaves an entry that is there alone. */
  class Consumers {
    var consumers: map<Key, Consumer>
    ghost var registered: seq<Consumer>

    /** The table finds the first of everything that was ever registered. */
    ghost predicate Valid()
      reads this
    {
      forall h: bv32 :: Lookup(consumers, h) == First(registered, h)
    }

    constructor ()
      ensures Valid() && registered == []
    {
      consumers, registered := map[], [];
    }

    /** The constructor of a consumer, which computes the hash of the name and registers. */
    method AddConsumer(c: Consumer)
      requires Valid()
      modifies this
      ensures Valid() && registered == old(registered) + [c]
    {
      hide Hash, First;
      ghost var was := consumers;
      var hash := Compute(c.name);
      if Key(hash) !in consumers {
        consumers := consumers[Key(hash) := c];
      }
      forall h: bv32 ensures Lookup(consumers, h) == First(registered + [c], h) {
        FirstAppend(registered, c, h);
        assert Lookup(was, h) == First(registered, h);
        LookupAfterInsert(was, hash, c, h);
      }
      registered := registered + [c];
    }

    method GetConsumer(hash: bv32) returns (c: Option<Consumer>)
      requires Valid()
      ensures c == First(registered, hash)
    {
      c := if Key(hash) in consumers then Some(consumers[Key(hash)]) else None;
      assert c == Lookup(consumers, hash);
    }
  }

  function Lookup(m: map<Key, Consumer>, h: bv32): Option<Consumer> {
    if Key(h) in m then Some(m[Key(h)]) else None
  }

  lemma LookupAfterInsert(m: map<Key, Consumer>, k: bv32, c: Consumer, h: bv32)
    ensures Lookup(m[Key(k) := c], h) == if h == k then Some(c) else Lookup(m, h)
  {
  }

  /**
   A registered consumer is found under its own name exactly if no earlier one has its hash;
   otherwise the first of those is found.
   */
  lemma {:induction false} FoundUnlessShadowed(cs: seq<Consumer>, i: nat)
    requires i < |cs|
    ensures var h := Hash(cs[i].name);
            First(cs, h) == if First(cs[..i], h).Some? then First(cs[..i], h) else Some(cs[i])
    ensures First(cs[..i], Hash(cs[i].name)).None?
       <==> forall j :: 0 <= j < i ==> Hash(cs[j].name) != Hash(cs[i].name)
    decreases i
  {
    hide Hash;
    if i > 0 {
      FoundUnlessShadowed(cs[1..], i - 1);
      assert cs[..i][1..] == cs[1..][..i - 1];
      assert forall j :: 0 < j < i ==> cs[j] == cs[1..][j - 1];
    }
  }

  /** Topics that are equal but for the case of ASCII letters have the same consumer. */
  lemma DispatchIgnoresCase(cs: seq<Consumer>, topic: Str, other: Str)
    requires SameLetters(topic, other)
    ensures First(cs, Hash(topic)) == First(cs, Hash(other))
  {
    hide Hash, First;
    CaseIsIgnored(topic, other);
  }

  /**
   A consumer whose name has the same length as a topic and differs from it in one character,
   case apart, may be registered at any time: the topic is dispatched as if it were not there.
   */
  lemma {:induction false} NearNamesDoNotShadow(before: seq<Consumer>, c: Consumer, after: seq<Consumer>,
                                                topic: Str, i: nat)
    requires |topic| == |c.name| && i < |topic| && !SameLetter(topic[i], c.name[i])
    requires forall k :: 0 <= k < |topic| && k != i ==> SameLetter(topic[k], c.name[k])
    ensures First(before + [c] + after, Hash(topic)) == First(before + after, Hash(topic))
    decreases |before|
  {
    hide Hash, SameLetter;
    OneDifferenceNeverCollides(topic, c.name, i);
    if before == [] {
      assert before + [c] + after == [c] + after && before + after == after;
      assert ([c] + after)[1..] == after;
    } else {
      assert (before + [c] + after)[1..] == before[1..] + [c] + after;
      assert (before + after)[1..] == before[1..] + after;
      NearNamesDoNotShadow(before[1..], c, after, topic, i);
    }
  }
}
