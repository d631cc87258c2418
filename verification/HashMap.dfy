/** The linear-probing hash map of libargs/args.c. */
module Hashing {
  import opened Arithmetic

  const TWO_TO_32 := 0x1_0000_0000

  /** Bitwise AND and XOR of natural numbers, bit by bit. */
  function And(a: nat, b: nat): nat {
    if a == 0 || b == 0 then 0 else (a % 2) * (b % 2) + 2 * And(a / 2, b / 2)
  }

  function Xor(a: nat, b: nat): nat
    decreases a + b
  {
    if a == 0 && b == 0 then 0 else (a + b) % 2 + 2 * Xor(a / 2, b / 2)
  }

  /** The FNV-1a hash over 32 bits, which str_hash computes. */
  function StrHash(s: string): (h: nat)
    ensures h < TWO_TO_32
  {
    if s == "" then 2166136261
    else (Xor(StrHash(s[..|s| - 1]), s[|s| - 1] as nat % 256) * 16777619) % TWO_TO_32
  }

  lemma Halves(r: nat, x: nat)
    requires r < 2
    ensures (r + 2 * x) % 2 == r && (r + 2 * x) / 2 == x
  {
  }

  lemma {:induction false} XorHalves(a: nat, b: nat)
    ensures Xor(a, b) % 2 == (a + b) % 2 && Xor(a, b) / 2 == Xor(a / 2, b / 2)
  {
    Halves((a + b) % 2, Xor(a / 2, b / 2));
  }

  /** The same the other way round. */
  lemma {:induction false} XorStep(a: nat, b: nat, half: nat)
    requires Xor(a / 2, b / 2) == half
    ensures Xor(a, b) == (a + b) % 2 + 2 * half
  {
    XorHalves(a, b);
  }

  /** Every bit of the exclusive or is the sum of the two bits without the carry. */
  lemma {:induction false} XorBit(a: nat, b: nat, i: nat)
    ensures Bit(Xor(a, b), i) == (Bit(a, i) + Bit(b, i)) % 2
    decreases i
  {
    XorHalves(a, b);
    if i > 0 {
      XorBit(a / 2, b / 2, i - 1);
    }
  }

  function Bit(n: nat, i: nat): nat {
    if i == 0 then n % 2 else Bit(n / 2, i - 1)
  }

  lemma {:induction false} XorZero(a: nat)
    ensures Xor(a, 0) == a
  {
    XorHalves(a, 0);
    if a > 0 {
      XorZero(a / 2);
    }
  }

  /** The start value against a character, from the high bits down. */
  lemma {:induction false} FirstXor()
    ensures Xor(2166136261, 97) == 2166136228
  {
    XorZero(16922939);
    XorStep(33845879, 1, 16922939);
    XorStep(67691758, 3, 33845878);
    XorStep(135383516, 6, 67691757);
    XorStep(270767032, 12, 135383514);
    XorStep(541534065, 24, 270767028);
    XorStep(1083068130, 48, 541534057);
    XorStep(2166136261, 97, 1083068114);
  }

  lemma {:induction false} SecondXor()
    ensures Xor(2166136261, 98) == 2166136231
  {
    XorZero(16922939);
    XorStep(33845879, 1, 16922939);
    XorStep(67691758, 3, 33845878);
    XorStep(135383516, 6, 67691757);
    XorStep(270767032, 12, 135383514);
    XorStep(541534065, 24, 270767028);
    XorStep(1083068130, 49, 541534057);
    XorStep(2166136261, 98, 1083068115);
  }

  lemma {:induction false} KnownXor(start: nat, c: nat)
    requires start == 2166136261
    ensures c == 97 ==> Xor(start, c) == 2166136228
    ensures c == 98 ==> Xor(start, c) == 2166136231
  {
    FirstXor();
    SecondXor();
  }

  lemma {:induction false} OneCharacter(c: char, start: nat)
    requires start == 2166136261
    ensures StrHash([c]) == Xor(start, c as nat % 256) * 16777619 % TWO_TO_32
  {
    assert [c][..0] == "" && StrHash("") == start;
  }

  /** Published values of the 32-bit FNV-1a hash: of the empty string, "a" and "b". */
  lemma {:induction false} KnownHashes(c: char, start: nat)
    requires start == StrHash("")
    ensures start == 0x811C9DC5
    ensures c == 'a' ==> StrHash([c]) == 0xE40C292C
    ensures c == 'b' ==> StrHash([c]) == 0xE70C2DE5
  {
    var low := c as nat % 256;
    KnownXor(start, low);
    OneCharacter(c, start);
    KnownProduct(Xor(start, low));
  }

  lemma KnownProduct(x: nat)
    ensures x == 2166136228 ==> x * 16777619 % TWO_TO_32 == 0xE40C292C
    ensures x == 2166136231 ==> x * 16777619 % TWO_TO_32 == 0xE70C2DE5
  {
  }

  method HashString(s: string) returns (hash: nat)
    ensures hash == StrHash(s)
  {
    hash := 2166136261;
    for i := 0 to |s|
      invariant hash == StrHash(s[..i])
    {
      assert s[..i + 1][..i] == s[..i];
      hash := Xor(hash, s[i] as nat % 256);
      hash := hash * 16777619 % TWO_TO_32;
    }
    assert s[..|s|] == s;
  }

  ghost predicate PowerOfTwo(n: nat)
    decreases n
  {
    n == 1 || (n > 1 && n % 2 == 0 && PowerOfTwo(n / 2))
  }

  /** Masking with capacity - 1 is taking the remainder, as the comment in map_find claims. */
  lemma {:induction false} MaskIsRemainder(h: nat, capacity: nat)
    requires PowerOfTwo(capacity)
    ensures And(h, capacity - 1) == h % capacity
    decreases capacity
  {
    if capacity > 1 {
      var half := capacity / 2;
      MaskIsRemainder(h / 2, half);
      assert (capacity - 1) / 2 == half - 1 && (capacity - 1) % 2 == 1;
      RemainderOfHalf(h, half);
    }
  }

  lemma RemainderOfHalf(h: nat, half: nat)
    requires half > 0
    ensures h % (2 * half) == h % 2 + 2 * ((h / 2) % half)
  {
    var q, r := (h / 2) / half, (h / 2) % half;
    assert h / 2 == half * q + r;
    assert 2 * (half * q) == (2 * half) * q;
    RemainderIs(h, 2 * half, q, 2 * r + h % 2);
  }
}

/** Probing in a table given as a sequence of entries. */
module Probing {
  import opened Arithmetic
  import opened Hashing

  datatype Entry<V> = Free | Used(key: string, value: V, hash: nat)

  /** The slot where the search for a key with this hash begins. */
  function Home(hash: nat, capacity: nat): (i: nat)
    requires capacity > 0
    ensures i < capacity
  {
    hash % capacity
  }

  /** The mask of map_find applied to a hash gives the home slot. */
  function FirstSlot(hash: nat, capacity: nat): (i: nat)
    requires PowerOfTwo(capacity)
    ensures i == Home(hash, capacity)
  {
    MaskIsRemainder(hash, capacity);
    And(hash, capacity - 1)
  }

  /** The mask of map_find applied to a successor gives the next slot around the table. */
  function NextSlot(i: nat, capacity: nat): (j: nat)
    requires PowerOfTwo(capacity) && i < capacity
    ensures j == if i + 1 == capacity then 0 else i + 1
  {
    MaskIsRemainder(i + 1, capacity);
    RemainderIs(i + 1, capacity, if i + 1 == capacity then 1 else 0, if i + 1 == capacity then 0 else i + 1);
    And(i + 1, capacity - 1)
  }

  /** Going up from slot h and around, slot j is met before slot i. */
  predicate Before(h: nat, j: nat, i: nat) {
    if h <= i then h <= j < i else j >= h || j < i
  }

  /** Every slot from the home of entry i up to i is in use. */
  ghost predicate Unbroken<V>(es: seq<Entry<V>>, i: nat)
    requires i < |es| && es[i].Used?
  {
    forall j :: 0 <= j < |es| && Before(Home(es[i].hash, |es|), j, i) ==> es[j].Used?
  }

  /** The table holds exactly the pairs of m, each on an unbroken run from its home slot. */
  ghost predicate Represents<V>(es: seq<Entry<V>>, m: map<string, V>) {
    && (forall i :: 0 <= i < |es| && es[i].Used? ==>
          es[i].hash == StrHash(es[i].key) && Unbroken(es, i) && es[i].key in m && m[es[i].key] == es[i].value)
    && (forall i, j :: 0 <= i < j < |es| && es[i].Used? && es[j].Used? ==> es[i].key != es[j].key)
    && (forall k :: k in m ==> exists i :: 0 <= i < |es| && es[i].Used? && es[i].key == k)
  }

  function CountUsed<V>(es: seq<Entry<V>>): (n: nat)
    ensures n <= |es|
  {
    if es == [] then 0 else CountUsed(es[..|es| - 1]) + if es[|es| - 1].Used? then 1 else 0
  }

  lemma {:induction false} SomeFree<V>(es: seq<Entry<V>>) returns (i: nat)
    requires CountUsed(es) < |es|
    ensures i < |es| && es[i].Free?
    decreases |es|
  {
    var n := |es| - 1;
    if es[n].Free? {
      i := n;
    } else {
      i := SomeFree(es[..n]);
    }
  }

  lemma {:induction false} CountAfterInsert<V>(es: seq<Entry<V>>, i: nat, e: Entry<V>)
    requires i < |es| && e.Used?
    ensures CountUsed(es[i := e]) == CountUsed(es) + if es[i].Free? then 1 else 0
    decreases |es|
  {
    var n := |es| - 1;
    if i < n {
      CountAfterInsert(es[..n], i, e);
      assert es[i := e][..n] == es[..n][i := e];
    } else {
      assert es[i := e][..n] == es[..n];
    }
  }

  lemma {:induction false} CountPrefix<V>(es: seq<Entry<V>>, i: nat)
    requires i <= |es|
    ensures CountUsed(es[..i]) <= CountUsed(es)
    ensures i < |es| ==> CountUsed(es[..i + 1]) == CountUsed(es[..i]) + if es[i].Used? then 1 else 0
    decreases |es|
  {
    if i < |es| {
      assert es[..i + 1][..i] == es[..i];
      if i + 1 < |es| {
        CountPrefix(es[..|es| - 1], i);
        assert es[..|es| - 1][..i] == es[..i] && es[..|es| - 1][..i + 1] == es[..i + 1];
      } else {
        assert es[..i + 1] == es;
      }
    } else {
      assert es[..i] == es;
    }
  }

  lemma {:induction false} AllFree<V>(es: seq<Entry<V>>)
    requires forall i :: 0 <= i < |es| ==> es[i].Free?
    ensures CountUsed(es) == 0 && Represents(es, map[])
    decreases |es|
  {
    if es != [] {
      AllFree(es[..|es| - 1]);
    }
  }

  /** part holds the pairs of m whose keys are among the first i entries. */
  ghost predicate Transferred<V>(es: seq<Entry<V>>, m: map<string, V>, part: map<string, V>, i: nat)
    requires i <= |es|
  {
    && (forall k :: k in part ==> k in m && part[k] == m[k])
    && (forall k :: k in part ==> exists j :: 0 <= j < i && es[j].Used? && es[j].key == k)
    && (forall j :: 0 <= j < i && es[j].Used? ==> es[j].key in part)
  }

  lemma TransferNext<V>(es: seq<Entry<V>>, m: map<string, V>, part: map<string, V>, i: nat)
    requires i < |es| && Represents(es, m) && Transferred(es, m, part, i)
    ensures es[i].Used? ==> es[i].key !in part && Transferred(es, m, part[es[i].key := es[i].value], i + 1)
    ensures es[i].Free? ==> Transferred(es, m, part, i + 1)
  {
    if es[i].Used? {
      var part' := part[es[i].key := es[i].value];
      forall k | k in part' ensures exists j :: 0 <= j < i + 1 && es[j].Used? && es[j].key == k {
        if k == es[i].key {
          assert es[i].Used? && es[i].key == k;
        } else {
          var j :| 0 <= j < i && es[j].Used? && es[j].key == k;
          assert 0 <= j < i + 1 && es[j].Used? && es[j].key == k;
        }
      }
    }
  }

  lemma TransferDone<V>(es: seq<Entry<V>>, m: map<string, V>, part: map<string, V>)
    requires Represents(es, m) && Transferred(es, m, part, |es|)
    ensures part == m
  {
    forall k | k in m ensures k in part {
      var i :| 0 <= i < |es| && es[i].Used? && es[i].key == k;
    }
  }

  /** Where a search may end: at the key, or at a free slot with only other keys before it. */
  ghost predicate Found<V>(es: seq<Entry<V>>, key: string, i: nat) {
    && i < |es|
    && (es[i].Used? ==> es[i].key == key)
    && (forall j :: 0 <= j < |es| && Before(Home(StrHash(key), |es|), j, i) ==> es[j].Used? && es[j].key != key)
  }

  /** A search that ends at a free slot proves the key absent; one that ends at a used slot
      has found its value. */
  lemma FoundDecides<V>(es: seq<Entry<V>>, m: map<string, V>, key: string, i: nat)
    requires Represents(es, m) && Found(es, key, i)
    ensures es[i].Used? <==> key in m
    ensures es[i].Used? ==> m[key] == es[i].value
  {
  }

  /** Writing the key at the slot where its search ended adds or replaces exactly that key. */
  lemma WriteRepresents<V>(es: seq<Entry<V>>, m: map<string, V>, key: string, i: nat, v: V)
    requires Represents(es, m) && Found(es, key, i)
    ensures Represents(es[i := Used(key, v, StrHash(key))], m[key := v])
  {
    var es', m' := es[i := Used(key, v, StrHash(key))], m[key := v];
    forall j | 0 <= j < |es'| && es'[j].Used?
      ensures Unbroken(es', j) && es'[j].key in m' && m'[es'[j].key] == es'[j].value
      ensures es'[j].hash == StrHash(es'[j].key)
    {
      if j != i {
        assert Unbroken(es, j) && es[j].key in m;
      }
    }
    forall k | k in m' ensures exists j :: 0 <= j < |es'| && es'[j].Used? && es'[j].key == k {
      if k == key {
        assert es'[i].key == k;
      } else {
        var j :| 0 <= j < |es| && es[j].Used? && es[j].key == k;
        assert es'[j].key == k;
      }
    }
    forall a, b | 0 <= a < b < |es'| && es'[a].Used? && es'[b].Used? ensures es'[a].key != es'[b].key {
      if es[i].Free? && (a == i || b == i) {
        var o := if a == i then b else a;
        assert es[o].key in m;
      }
    }
  }
}

module HashMaps {
  import opened Hashing
  import opened Probing

  class HashMap<V(0)> {
    var count: nat
    var capacity: nat
    var maxLoadThreshold: nat
    var entries: array<Entry<V>>
    ghost var contents: map<string, V>

    /** Capacity is zero or a power of two, and at most half of the table is in use. */
    ghost predicate Valid()
      reads this, entries
    {
      && entries.Length == capacity && (capacity == 0 || (capacity >= 8 && PowerOfTwo(capacity)))
      && maxLoadThreshold == capacity / 2 && count <= maxLoadThreshold
      && count == CountUsed(entries[..]) && Represents(entries[..], contents)
    }

    constructor ()
      ensures Valid() && contents == map[] && fresh(entries)
    {
      count, capacity, maxLoadThreshold := 0, 0, 0;
      entries := new Entry<V>[0];
      contents := map[];
    }

    /** map_find: terminates because some slot is free. */
    method Find(key: string, keyHash: nat) returns (index: nat)
      requires capacity > 0 && PowerOfTwo(capacity) && entries.Length == capacity && keyHash == StrHash(key)
      requires forall i :: 0 <= i < capacity && entries[i].Used? ==> entries[i].hash == StrHash(entries[i].key)
      requires CountUsed(entries[..]) < capacity
      ensures index < capacity && Found(entries[..], key, index)
    {
      index := FirstSlot(keyHash, capacity);
      ghost var home := Home(keyHash, capacity);
      ghost var free := SomeFree(entries[..]);
      ghost var n := 0;
      while true
        invariant index < capacity && n < capacity
        invariant index == if home + n < capacity then home + n else home + n - capacity
        invariant forall j :: 0 <= j < capacity && Before(home, j, index) ==> entries[j].Used? && entries[j].key != key
        invariant !Before(home, free, index)
        decreases capacity - n
      {
        var entry := entries[index];
        if entry.Free? {
          return;
        } else if keyHash == entry.hash && key == entry.key {
          return;
        }
        index := NextSlot(index, capacity);
        n := n + 1;
      }
    }

    /** map_get */
    method Get(key: string) returns (found: bool, value: V)
      requires Valid()
      ensures found <==> key in contents
      ensures found ==> value == contents[key]
    {
      value := *;
      if count == 0 {
        NoneUsed();
        return false, value;
      }
      var keyHash := HashString(key);
      var index := Find(key, keyHash);
      FoundDecides(entries[..], contents, key, index);
      var entry := entries[index];
      if entry.Free? {
        return false, value;
      }
      return true, entry.value;
    }

    lemma NoneUsed()
      requires Valid() && count == 0
      ensures contents == map[]
    {
      if k :| k in contents {
        var i :| 0 <= i < capacity && entries[..][i].Used? && entries[..][i].key == k;
        CountPrefix(entries[..], i);
        CountPrefix(entries[..], i + 1);
      }
    }

    /** The body of the loop of map_grow for an entry in use. */
    method Transfer(src: Entry<V>)
      requires Valid() && count < maxLoadThreshold && src.Used? && src.hash == StrHash(src.key) && src.key !in contents
      modifies this`count, this`contents, entries
      ensures Valid() && contents == old(contents)[src.key := src.value] && count == old(count) + 1
    {
      var dst := Find(src.key, src.hash);
      FoundDecides(entries[..], contents, src.key, dst);
      WriteRepresents(entries[..], contents, src.key, dst, src.value);
      CountAfterInsert(entries[..], dst, src);
      entries[dst] := src;
      count := count + 1;
      contents := contents[src.key := src.value];
    }

    /** An empty table of the given capacity. */
    method Reset(newCapacity: nat)
      requires newCapacity >= 8 && PowerOfTwo(newCapacity)
      modifies this
      ensures Valid() && contents == map[] && fresh(entries)
      ensures capacity == newCapacity && count == 0
    {
      entries := new Entry<V>[newCapacity](_ => Free);
      count, capacity, maxLoadThreshold := 0, newCapacity, newCapacity / 2;
      contents := map[];
      AllFree(entries[..]);
    }

    /** map_grow: every entry is moved to its place in a table of twice the size. */
    method Grow()
      requires Valid()
      modifies this
      ensures Valid() && contents == old(contents) && fresh(entries)
      ensures count == old(count) < maxLoadThreshold
      ensures capacity == if old(capacity) < 8 then 8 else old(capacity) * 2
    {
      var oldEntries, oldCapacity := entries, capacity;
      var newCapacity := if oldCapacity < 8 then 8 else oldCapacity * 2;
      ghost var es, m := entries[..], contents;
      Reset(newCapacity);
      for i := 0 to oldCapacity
        invariant oldEntries[..] == es && Valid() && fresh(entries) && capacity == newCapacity
        invariant count == CountUsed(es[..i]) && Transferred(es, m, contents, i)
      {
        TransferAt(oldEntries, m, i);
      }
      assert es[..oldCapacity] == es;
      TransferDone(es, m, contents);
    }

    /** One iteration of that loop. */
    method TransferAt(source: array<Entry<V>>, ghost m: map<string, V>, i: nat)
      requires Valid() && source != entries && i < source.Length && Represents(source[..], m)
      requires count == CountUsed(source[..][..i]) && Transferred(source[..], m, contents, i)
      requires CountUsed(source[..]) < maxLoadThreshold
      modifies this`count, this`contents, entries
      ensures Valid() && count == CountUsed(source[..][..i + 1]) && Transferred(source[..], m, contents, i + 1)
    {
      CountPrefix(source[..], i);
      CountPrefix(source[..], i + 1);
      TransferNext(source[..], m, contents, i);
      if source[i].Used? {
        Transfer(source[i]);
      }
    }

    /** map_set: adds the key or replaces its value, growing the table first if it is half full. */
    method Set(key: string, value: V)
      requires Valid()
      modifies this, entries
      ensures Valid() && contents == old(contents)[key := value]
      ensures entries == old(entries) || fresh(entries)
    {
      if count == maxLoadThreshold {
        Grow();
      }
      var keyHash := HashString(key);
      var index := Find(key, keyHash);
      Write(key, value, keyHash, index);
    }

    /** Writes at the slot where the search for the key has ended. */
    method Write(key: string, value: V, keyHash: nat, index: nat)
      requires Valid() && count < maxLoadThreshold && keyHash == StrHash(key) && Found(entries[..], key, index)
      modifies this`count, this`contents, entries
      ensures Valid() && contents == old(contents)[key := value]
    {
      WriteRepresents(entries[..], contents, key, index, value);
      CountAfterInsert(entries[..], index, Used(key, value, keyHash));
      if entries[index].Free? {
        count := count + 1;
      }
      entries[index] := Used(key, value, keyHash);
      contents := contents[key := value];
    }

    /** The end of the word that starts at the given position: its next space or the end of the text. */
    method FindWordEnd(keyString: string, wordStart: nat) returns (wordEnd: nat)
      requires wordStart < |keyString| && keyString[wordStart] != ' '
      ensures wordStart < wordEnd <= |keyString|
      ensures WordLength(keyString[wordStart..]) == wordEnd - wordStart
    {
      wordEnd := wordStart;
      while wordEnd < |keyString| && keyString[wordEnd] != ' '
        invariant wordStart <= wordEnd <= |keyString|
        invariant WordLength(keyString[wordStart..]) == wordEnd - wordStart + WordLength(keyString[wordEnd..])
      {
        wordEnd := wordEnd + 1;
      }
    }

    /** map_set_splitkey: one entry for each space-separated word. */
    method SetSplitKey(keyString: string, value: V)
      requires Valid()
      modifies this, entries
      ensures Valid() && contents == SetAll(old(contents), Words(keyString), value)
      ensures entries == old(entries) || fresh(entries)
    {
      var wordStart := 0;
      while wordStart < |keyString|
        invariant Valid() && (entries == old(entries) || fresh(entries))
        invariant SetAll(contents, Words(From(keyString, wordStart)), value)
               == SetAll(old(contents), Words(keyString), value)
        decreases |keyString| - wordStart
      {
        if keyString[wordStart] == ' ' {
          SkipSpace(keyString, wordStart);
          wordStart := wordStart + 1;
        } else {
          var wordEnd := FindWordEnd(keyString, wordStart);
          NextWord(keyString, wordStart, wordEnd);
          SetAllNext(contents, keyString[wordStart..wordEnd], Words(From(keyString, wordEnd + 1)), value);
          Set(keyString[wordStart..wordEnd], value);
          wordStart := wordEnd + 1;
        }
      }
    }
  }

  lemma SkipSpace(s: string, i: nat)
    requires i < |s| && s[i] == ' '
    ensures Words(From(s, i)) == Words(From(s, i + 1))
  {
    assert s[i..][1..] == s[i + 1..];
  }

  lemma SetAllNext<V>(m: map<string, V>, word: string, words: seq<string>, value: V)
    ensures SetAll(m, [word] + words, value) == SetAll(m[word := value], words, value)
  {
    assert ([word] + words)[1..] == words;
  }

  function WordLength(s: string): (n: nat)
    ensures n <= |s|
  {
    if s == "" || s[0] == ' ' then 0 else 1 + WordLength(s[1..])
  }

  /** The space-separated words of a string. */
  function Words(s: string): seq<string>
    decreases |s|
  {
    if s == "" then []
    else if s[0] == ' ' then Words(s[1..])
    else [s[..WordLength(s)]] + Words(s[WordLength(s)..])
  }

  function From(s: string, i: nat): string {
    if i <= |s| then s[i..] else ""
  }

  lemma NextWord(s: string, start: nat, end: nat)
    requires start < end <= |s| && WordLength(s[start..]) == end - start
    ensures Words(From(s, start)) == [s[start..end]] + Words(From(s, end + 1))
  {
    assert s[start..][..end - start] == s[start..end] && s[start..][end - start..] == s[end..];
    WordEnds(s[start..]);
    if end < |s| {
      assert s[end..][1..] == s[end + 1..];
    }
  }

  lemma {:induction false} WordEnds(s: string)
    ensures WordLength(s) < |s| ==> s[WordLength(s)] == ' '
    decreases |s|
  {
    if s != "" && s[0] != ' ' {
      WordEnds(s[1..]);
    }
  }

  function SetAll<V>(m: map<string, V>, words: seq<string>, value: V): map<string, V>
    decreases |words|
  {
    if words == [] then m else SetAll(m[words[0] := value], words[1..], value)
  }
}
