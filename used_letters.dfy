/** The map from characters to "already guessed" flags, and the sorted list of untried
    letters it yields. */
module UsedLetters {

  /** The 26 letters the map starts with. */
  const Alphabet: string := "abcdefghijklmnopqrstuvwxyz"

  predicate IsLetter(c: char)
  {
    'a' <= c <= 'z'
  }

  lemma AlphabetIsLetters()
    ensures forall c :: c in Alphabet <==> IsLetter(c)
  {
  }

  /** The map a new game starts with: every letter a-z, none used yet. */
  function InitialLetters(): (m: map<char, bool>)
    ensures forall c :: c in m <==> IsLetter(c)
    ensures forall c :: c in m ==> !m[c]
  {
    AlphabetIsLetters();
    map c | c in Alphabet :: false
  }

  /** Builds the starting map by inserting the letters one at a time. */
  method NewLetterMap() returns (letters: map<char, bool>)
    ensures letters == InitialLetters()
  {
    letters := map[];
    for k := 0 to |Alphabet|
      invariant letters.Keys == set c | c in Alphabet[..k]
      invariant forall c :: c in letters ==> !letters[c]
    {
      assert Alphabet[..k + 1] == Alphabet[..k] + [Alphabet[k]];
      letters := letters[Alphabet[k] := false];
    }
    assert Alphabet[..|Alphabet|] == Alphabet;
  }

  /** The invariant the game keeps: every letter is tracked, and only letters can be
      flagged as unused (any other character enters the map already used). */
  ghost predicate Tracks(used: map<char, bool>)
  {
    (forall c :: IsLetter(c) ==> c in used) &&
    (forall c :: c in used && !used[c] ==> IsLetter(c))
  }

  /** `used` after flagging every character of `s`, one at a time, as used (whether or
      not the character was in the map before). */
  function Marked(used: map<char, bool>, s: string): (m: map<char, bool>)
    ensures m.Keys == used.Keys + set c | c in s
    ensures forall c :: c in s ==> m[c]
    ensures forall c :: c in used && c !in s ==> m[c] == used[c]
    ensures forall c :: c in used && used[c] ==> m[c]
    decreases |s|
  {
    if s == [] then used
    else Marked(used, s[..|s| - 1])[s[|s| - 1] := true]
  }

  /** Flagging one more character is one more map update. */
  lemma MarkedOneMore(used: map<char, bool>, s: string, c: char)
    ensures Marked(used, s + [c]) == Marked(used, s)[c := true]
  {
  }

  /** The letters not tried yet. */
  function Unused(used: map<char, bool>): set<char>
  {
    set c | c in used && !used[c]
  }

  /** Marking removes exactly the marked characters from the untried ones. */
  lemma UnusedAfterMarking(used: map<char, bool>, s: string)
    ensures Unused(Marked(used, s)) == Unused(used) - set c | c in s
  {
  }

  /** Marking keeps the invariant. */
  lemma MarkingKeepsTracking(used: map<char, bool>, s: string)
    ensures Tracks(used) ==> Tracks(Marked(used, s))
  {
  }

  predicate Sorted(s: string)
  {
    forall i, j :: 0 <= i < j < |s| ==> s[i] <= s[j]
  }

  predicate StrictlyIncreasing(s: string)
  {
    forall i, j :: 0 <= i < j < |s| ==> s[i] < s[j]
  }

  /** Two equal entries make a character occur at least twice. */
  lemma EqualEntriesCountTwice(s: string, i: nat, j: nat)
    requires i < j < |s|
    ensures s[i] == s[j] ==> multiset(s)[s[i]] >= 2
  {
    assert s == s[..i] + [s[i]] + s[i + 1..j] + [s[j]] + s[j + 1..];
  }

  /** A sorted sequence that holds no character twice is strictly increasing. */
  lemma SortedDistinctIsStrict(s: string)
    requires Sorted(s)
    requires forall c :: multiset(s)[c] <= 1
    ensures StrictlyIncreasing(s)
  {
    forall i, j | 0 <= i < j < |s|
      ensures s[i] != s[j]
    {
      EqualEntriesCountTwice(s, i, j);
    }
  }

  /** Exchanges two entries of `a`. */
  method Swap(a: array<char>, i: nat, j: nat)
    requires i < a.Length && j < a.Length
    modifies a
    ensures a[..] == old(a[..])[i := old(a[j])][j := old(a[i])]
    ensures multiset(a[..]) == multiset(old(a[..]))
  {
    a[i], a[j] := a[j], a[i];
  }

  /** Moves a[i] left into the sorted prefix a[..i], leaving the rest alone. */
  method InsertIntoPrefix(a: array<char>, i: nat)
    requires i < a.Length && Sorted(a[..i])
    modifies a
    ensures Sorted(a[..i + 1])
    ensures a[i + 1..] == old(a[i + 1..])
    ensures multiset(a[..]) == multiset(old(a[..]))
  {
    var j := i;
    while j > 0 && a[j - 1] > a[j]
      invariant 0 <= j <= i
      invariant forall p, q :: 0 <= p < q <= i && q != j ==> a[p] <= a[q]
      invariant 0 < j < i ==> a[j - 1] <= a[j + 1]
      invariant a[i + 1..] == old(a[i + 1..])
      invariant multiset(a[..]) == multiset(old(a[..]))
    {
      Swap(a, j - 1, j);
      j := j - 1;
    }
  }

  /** Sorts `a` in place in ascending order (insertion sort). */
  method SortInPlace(a: array<char>)
    modifies a
    ensures Sorted(a[..])
    ensures multiset(a[..]) == multiset(old(a[..]))
  {
    var i := 0;
    while i < a.Length
      invariant 0 <= i <= a.Length
      invariant Sorted(a[..i])
      invariant multiset(a[..]) == multiset(old(a[..]))
    {
      InsertIntoPrefix(a, i);
      i := i + 1;
    }
    assert a[..a.Length] == a[..];
  }
}
