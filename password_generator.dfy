/**
  The password generator: three to five lower-case letters, three to five
  capitals, two to four symbols and two to four digits, shuffled in place.
  Every draw of the `secrets` module is a parameter: `counts` are the four
  `randbelow(3)` results, `pick` the stream of character choices, and
  `swaps` the index choices of the shuffle.
*/
module PasswordGenerator {
  import opened Ascii

  const Symbols: string := "!@#$%^&*()_-+="

  /** The characters of `Symbols`, as a set. */
  const SymbolSet: set<char> := {'!', '@', '#', '$', '%', '^', '&', '*', '(', ')', '_', '-', '+', '='}

  lemma SymbolsAreSymbolSet()
    ensures forall c :: c in Symbols <==> c in SymbolSet
    ensures |Symbols| == 14
  {
    assert Symbols == ['!', '@', '#', '$', '%', '^', '&', '*', '(', ')', '_', '-', '+', '='];
  }

  /** The four alphabets of `generate_password`, in the order they are drawn. */
  datatype CharClass = LowerClass | UpperClass | SymbolClass | DigitClass

  function ClassSize(k: CharClass): nat {
    match k
    case LowerClass => 26
    case UpperClass => 26
    case SymbolClass => 14
    case DigitClass => 10
  }

  predicate InClass(c: char, k: CharClass) {
    match k
    case LowerClass => IsLower(c)
    case UpperClass => IsUpper(c)
    case SymbolClass => c in SymbolSet
    case DigitClass => IsDigit(c)
  }

  /** The symbols are neither letters nor digits, so each character is in exactly one class. */
  lemma ClassesDisjoint(c: char, k: CharClass, m: CharClass)
    requires InClass(c, k) && InClass(c, m)
    ensures k == m
  {
  }

  /** The `i`-th character of an alphabet, in the order of the `string` constants. */
  function ClassChar(k: CharClass, i: nat): (c: char)
    requires i < ClassSize(k)
    ensures InClass(c, k)
  {
    match k
    case LowerClass => ('a' as int + i) as char
    case UpperClass => ('A' as int + i) as char
    case SymbolClass => SymbolsAreSymbolSet(); Symbols[i]
    case DigitClass => ('0' as int + i) as char
  }

  /**
    `[sc.choice(alphabet) for i in range(n)]`, the choices read from `pick`
    from `offset` on: the `i`-th character is choice `offset + i`.
  */
  function Drawn(k: CharClass, n: nat, pick: nat -> nat, offset: nat): (s: seq<char>)
    ensures |s| == n && forall i :: 0 <= i < n ==> InClass(s[i], k)
  {
    if n == 0 then []
    else
      var c := ClassChar(k, pick(offset + n - 1) % ClassSize(k));
      var front := Drawn(k, n - 1, pick, offset);
      assert InClass(c, k);
      front + [c]
  }

  /** The counts: `3 + randbelow(3)` letters of each case, `2 + randbelow(3)` symbols and digits. */
  function Counts(counts: (nat, nat, nat, nat)): (n: (nat, nat, nat, nat))
    ensures 3 <= n.0 <= 5 && 3 <= n.1 <= 5 && 2 <= n.2 <= 4 && 2 <= n.3 <= 4
  {
    (3 + counts.0 % 3, 3 + counts.1 % 3, 2 + counts.2 % 3, 2 + counts.3 % 3)
  }

  /** The four comprehensions concatenated, with `n` characters of each class. */
  function Runs(n: (nat, nat, nat, nat), pick: nat -> nat): seq<char> {
    Drawn(LowerClass, n.0, pick, 0)
    + Drawn(UpperClass, n.1, pick, n.0)
    + Drawn(SymbolClass, n.2, pick, n.0 + n.1)
    + Drawn(DigitClass, n.3, pick, n.0 + n.1 + n.2)
  }

  /** `random_chars` before the shuffle. */
  function Unshuffled(counts: (nat, nat, nat, nat), pick: nat -> nat): seq<char> {
    Runs(Counts(counts), pick)
  }

  /** How many characters of `s` are in class `k`. */
  function Count(s: seq<char>, k: CharClass): (r: nat)
    ensures r <= |s|
  {
    if s == [] then 0 else (if InClass(s[0], k) then 1 else 0) + Count(s[1..], k)
  }

  lemma {:induction false} CountAppend(a: seq<char>, b: seq<char>, k: CharClass)
    ensures Count(a + b, k) == Count(a, k) + Count(b, k)
  {
    if a == [] {
      assert a + b == b;
    } else {
      assert (a + b)[0] == a[0] && (a + b)[1..] == a[1..] + b;
      CountAppend(a[1..], b, k);
    }
  }

  /** A run drawn from one alphabet counts fully in its class and not at all in the others. */
  lemma {:induction false} CountUniform(s: seq<char>, m: CharClass, k: CharClass)
    requires forall i :: 0 <= i < |s| ==> InClass(s[i], m)
    ensures Count(s, k) == if k == m then |s| else 0
  {
    if s != [] {
      CountUniform(s[1..], m, k);
      if InClass(s[0], k) {
        ClassesDisjoint(s[0], k, m);
      }
    }
  }

  /** Taking out the character at `j` lowers its class count by one and leaves the others. */
  lemma CountRemove(b: seq<char>, j: nat, k: CharClass)
    requires j < |b|
    ensures Count(b, k) == Count(b[..j] + b[j + 1..], k) + (if InClass(b[j], k) then 1 else 0)
  {
    assert b == b[..j] + [b[j]] + b[j + 1..];
    CountAppend(b[..j] + [b[j]], b[j + 1..], k);
    CountAppend(b[..j], [b[j]], k);
    CountAppend(b[..j], b[j + 1..], k);
  }

  lemma MultisetRemove(b: seq<char>, j: nat)
    requires j < |b|
    ensures multiset(b[..j] + b[j + 1..]) == multiset(b) - multiset{b[j]}
  {
    assert b == b[..j] + [b[j]] + b[j + 1..];
    assert multiset(b) == multiset(b[..j]) + multiset{b[j]} + multiset(b[j + 1..]);
  }

  /** Where the first character of `a` sits in a rearrangement `b` of it. */
  lemma Locate(a: seq<char>, b: seq<char>) returns (j: nat)
    requires a != [] && multiset(a) == multiset(b)
    ensures j < |b| && b[j] == a[0]
  {
    assert a[0] in multiset(b);
    j :| 0 <= j < |b| && b[j] == a[0];
  }

  lemma PermutationTail(a: seq<char>, b: seq<char>, j: nat)
    requires a != [] && j < |b| && b[j] == a[0] && multiset(a) == multiset(b)
    requires multiset(b[..j] + b[j + 1..]) == multiset(b) - multiset{b[j]}
    ensures multiset(a[1..]) == multiset(b[..j] + b[j + 1..])
  {
    assert a == [a[0]] + a[1..];
  }

  /** Rearranging the characters keeps every class count. */
  lemma {:induction false} CountPermutation(a: seq<char>, b: seq<char>, k: CharClass)
    requires multiset(a) == multiset(b)
    ensures Count(a, k) == Count(b, k)
    decreases |a|
  {
    if a == [] {
      assert |b| == |multiset(b)|;
    } else {
      var j := Locate(a, b);
      MultisetRemove(b, j);
      PermutationTail(a, b, j);
      CountPermutation(a[1..], b[..j] + b[j + 1..], k);
      CountRemove(b, j, k);
    }
  }

  function Swap(s: seq<char>, i: nat, j: nat): (r: seq<char>)
    requires i < |s| && j < |s|
    ensures |r| == |s| && r[i] == s[j] && r[j] == s[i]
    ensures forall m :: 0 <= m < |s| && m != i && m != j ==> r[m] == s[m]
  {
    s[i := s[j]][j := s[i]]
  }

  /**
    The positions `n - 1` down to `1` of `random.shuffle`, each swapped with
    the position `swaps(i) % (i + 1)` chosen for it.
  */
  function Shuffled(s: seq<char>, swaps: nat -> nat, n: nat): (r: seq<char>)
    requires n <= |s|
    ensures |r| == |s|
    decreases n
  {
    if n <= 1 then s else Shuffled(Swap(s, n - 1, swaps(n - 1) % n), swaps, n - 1)
  }

  /** The shuffle is a permutation: the characters are the same, with the same multiplicities. */
  lemma {:induction false} ShuffledPermutation(s: seq<char>, swaps: nat -> nat, n: nat)
    requires n <= |s|
    ensures multiset(Shuffled(s, swaps, n)) == multiset(s)
    decreases n
  {
    if n > 1 {
      var t := Swap(s, n - 1, swaps(n - 1) % n);
      assert t == s[n - 1 := s[swaps(n - 1) % n]][swaps(n - 1) % n := s[n - 1]];
      ShuffledPermutation(t, swaps, n - 1);
    }
  }

  /** `SystemRandom().shuffle`: Fisher and Yates' shuffle in place. */
  method Shuffle(a: array<char>, swaps: nat -> nat)
    modifies a
    ensures a[..] == Shuffled(old(a[..]), swaps, a.Length)
  {
    var n := a.Length;
    while n > 1
      invariant 0 <= n <= a.Length
      invariant Shuffled(a[..], swaps, n) == Shuffled(old(a[..]), swaps, a.Length)
      decreases n
    {
      ghost var before := a[..];
      var i := n - 1;
      var j := swaps(i) % (i + 1);
      a[i], a[j] := a[j], a[i];
      assert a[..] == Swap(before, i, j);
      n := n - 1;
    }
  }

  /** The number of characters drawn from an alphabet. */
  function NumberDrawn(counts: (nat, nat, nat, nat), k: CharClass): nat {
    var n := Counts(counts);
    match k
    case LowerClass => n.0
    case UpperClass => n.1
    case SymbolClass => n.2
    case DigitClass => n.3
  }

  /**
    `generate_password`: the drawn characters shuffled and joined. The
    password has 10 to 18 characters, each class in its range, and nothing
    outside the four alphabets.
  */
  method GeneratePassword(counts: (nat, nat, nat, nat), pick: nat -> nat, swaps: nat -> nat) returns (password: string)
    ensures 10 <= |password| <= 18
    ensures forall k :: Count(password, k) == NumberDrawn(counts, k)
    ensures forall i :: 0 <= i < |password| ==> InClass(password[i], ClassOf(password[i]))
    ensures password == Shuffled(Unshuffled(counts, pick), swaps, |Unshuffled(counts, pick)|)
  {
    var chars := Unshuffled(counts, pick);
    var randomChars := new char[|chars|](i requires 0 <= i < |chars| => chars[i]);
    assert randomChars[..] == chars;
    Shuffle(randomChars, swaps);
    password := randomChars[..];
    assert password == Shuffled(chars, swaps, |chars|);
    PasswordFacts(counts, pick, swaps);
  }

  /** What the shuffle keeps of the drawn characters. */
  lemma PasswordFacts(counts: (nat, nat, nat, nat), pick: nat -> nat, swaps: nat -> nat)
    ensures var chars := Unshuffled(counts, pick); var password := Shuffled(chars, swaps, |chars|);
      && 10 <= |password| <= 18
      && (forall k :: Count(password, k) == NumberDrawn(counts, k))
      && (forall i :: 0 <= i < |password| ==> InClass(password[i], ClassOf(password[i])))
  {
    var chars := Unshuffled(counts, pick);
    var password := Shuffled(chars, swaps, |chars|);
    ShuffledPermutation(chars, swaps, |chars|);
    RunsCount(Counts(counts), pick);
    forall k ensures Count(password, k) == NumberDrawn(counts, k) {
      UnshuffledCount(counts, pick, k);
      CountPermutation(password, chars, k);
    }
    forall i | 0 <= i < |password| ensures InClass(password[i], ClassOf(password[i])) {
      PermutedClass(counts, pick, password, i);
    }
  }

  /** A character of a rearrangement of the drawn characters is in one of the four alphabets. */
  lemma PermutedClass(counts: (nat, nat, nat, nat), pick: nat -> nat, password: seq<char>, i: nat)
    requires multiset(password) == multiset(Unshuffled(counts, pick)) && i < |password|
    ensures InClass(password[i], ClassOf(password[i]))
  {
    var chars := Unshuffled(counts, pick);
    assert password[i] in multiset(chars);
    var j :| 0 <= j < |chars| && chars[j] == password[i];
    UnshuffledClasses(counts, pick, j);
  }

  /** The class of a character of the four alphabets. */
  function ClassOf(c: char): CharClass {
    if IsLower(c) then LowerClass else if IsUpper(c) then UpperClass else if IsDigit(c) then DigitClass else SymbolClass
  }

  /** Four runs, one per alphabet in drawing order: each class counts its own run. */
  lemma CountRuns(s: seq<char>, l: seq<char>, u: seq<char>, y: seq<char>, d: seq<char>)
    requires s == l + u + y + d
    requires forall i :: 0 <= i < |l| ==> InClass(l[i], LowerClass)
    requires forall i :: 0 <= i < |u| ==> InClass(u[i], UpperClass)
    requires forall i :: 0 <= i < |y| ==> InClass(y[i], SymbolClass)
    requires forall i :: 0 <= i < |d| ==> InClass(d[i], DigitClass)
    ensures |s| == |l| + |u| + |y| + |d|
    ensures Count(s, LowerClass) == |l| && Count(s, UpperClass) == |u|
    ensures Count(s, SymbolClass) == |y| && Count(s, DigitClass) == |d|
  {
    forall k | k in {LowerClass, UpperClass, SymbolClass, DigitClass}
      ensures Count(s, k) == Count(l, k) + Count(u, k) + Count(y, k) + Count(d, k)
    {
      CountAppend(l + u + y, d, k);
      CountAppend(l + u, y, k);
      CountAppend(l, u, k);
    }
    CountUniform(l, LowerClass, LowerClass);
    CountUniform(u, UpperClass, LowerClass);
    CountUniform(y, SymbolClass, LowerClass);
    CountUniform(d, DigitClass, LowerClass);
    CountUniform(l, LowerClass, UpperClass);
    CountUniform(u, UpperClass, UpperClass);
    CountUniform(y, SymbolClass, UpperClass);
    CountUniform(d, DigitClass, UpperClass);
    CountUniform(l, LowerClass, SymbolClass);
    CountUniform(u, UpperClass, SymbolClass);
    CountUniform(y, SymbolClass, SymbolClass);
    CountUniform(d, DigitClass, SymbolClass);
    CountUniform(l, LowerClass, DigitClass);
    CountUniform(u, UpperClass, DigitClass);
    CountUniform(y, SymbolClass, DigitClass);
    CountUniform(d, DigitClass, DigitClass);
  }

  /** Each class count of the runs is the number drawn for it. */
  lemma RunsCount(n: (nat, nat, nat, nat), pick: nat -> nat)
    ensures var s := Runs(n, pick);
      && |s| == n.0 + n.1 + n.2 + n.3
      && Count(s, LowerClass) == n.0 && Count(s, UpperClass) == n.1
      && Count(s, SymbolClass) == n.2 && Count(s, DigitClass) == n.3
  {
    var l, u := Drawn(LowerClass, n.0, pick, 0), Drawn(UpperClass, n.1, pick, n.0);
    var y, d := Drawn(SymbolClass, n.2, pick, n.0 + n.1), Drawn(DigitClass, n.3, pick, n.0 + n.1 + n.2);
    CountRuns(Runs(n, pick), l, u, y, d);
  }

  lemma UnshuffledCount(counts: (nat, nat, nat, nat), pick: nat -> nat, k: CharClass)
    ensures Count(Unshuffled(counts, pick), k) == NumberDrawn(counts, k)
  {
    RunsCount(Counts(counts), pick);
  }

  /** Every unshuffled character comes from one of the four alphabets. */
  lemma UnshuffledClasses(counts: (nat, nat, nat, nat), pick: nat -> nat, j: nat)
    requires j < |Unshuffled(counts, pick)|
    ensures var c := Unshuffled(counts, pick)[j]; InClass(c, ClassOf(c))
  {
    var n := Counts(counts);
    var s := Unshuffled(counts, pick);
    var c := s[j];
    var k := if j < n.0 then LowerClass else if j < n.0 + n.1 then UpperClass
      else if j < n.0 + n.1 + n.2 then SymbolClass else DigitClass;
    assert InClass(c, k);
    if c in SymbolSet {
      ClassesDisjoint(c, k, SymbolClass);
      assert !IsLetter(c) && !IsDigit(c) by {
        if IsLower(c) { ClassesDisjoint(c, LowerClass, SymbolClass); }
        if IsUpper(c) { ClassesDisjoint(c, UpperClass, SymbolClass); }
        if IsDigit(c) { ClassesDisjoint(c, DigitClass, SymbolClass); }
      }
    }
  }
}
