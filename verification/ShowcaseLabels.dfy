/** Candidate labels for the random premium showcase. */
module ShowcaseLabels {
  import opened Text

  // The word lists, row by row.
  const ADJECTIVES_0: seq<string> := ["bright", "crisp", "swift", "prime", "nova", "luma", "peak", "clear"]
  const ADJECTIVES_1: seq<string> := ["bold", "pure", "zen", "echo", "quantum", "pixel", "neon", "cloud"]
  const ADJECTIVES_2: seq<string> := ["sky", "moon", "star", "vertex", "aurora", "blaze", "drift", "ember"]
  const ADJECTIVES_3: seq<string> := ["flux", "glide", "harbor", "iris", "jade", "kite", "lark", "mint"]
  const ADJECTIVES_4: seq<string> := ["onyx", "pine", "quartz", "raven", "sage", "tide", "umbra", "vivid"]
  const ADJECTIVES_5: seq<string> := ["willow", "amber", "breeze", "cedar", "delta", "frost", "grove"]

  const ADJECTIVES: seq<string> := ADJECTIVES_0 + (ADJECTIVES_1 + (ADJECTIVES_2 + (ADJECTIVES_3 + (ADJECTIVES_4 + (ADJECTIVES_5)))))

  const NOUNS_0: seq<string> := ["byte", "craft", "deck", "edge", "forge", "grid", "hub", "ink", "jolt"]
  const NOUNS_1: seq<string> := ["key", "loop", "map", "node", "orbit", "pulse", "ray", "scope", "sync"]
  const NOUNS_2: seq<string> := ["trace", "unit", "view", "wave", "yield", "zone", "core", "dock", "frame"]
  const NOUNS_3: seq<string> := ["gate", "helm", "lane", "mesh", "nest", "ocean", "path", "quest", "root"]
  const NOUNS_4: seq<string> := ["span", "token", "vault", "web", "axis", "beam", "cell", "dawn", "fuse"]

  const NOUNS: seq<string> := NOUNS_0 + (NOUNS_1 + (NOUNS_2 + (NOUNS_3 + (NOUNS_4))))

  const SYLLABLES: seq<string> := [
    "ka", "ro", "lu", "mi", "na", "pe", "so", "te", "va", "ze", "bar",
    "don", "fel", "gor", "hal", "jin", "kel", "mar", "nil", "por", "ren",
    "sil", "tor", "ven", "wor", "yul", "zan", "bel", "cam", "dor"]

  const SUFFIXES: seq<string> := ["1", "2", "3", "7", "9"]

  // ----- what one word adds -----

  predicate IsAlnum(c: char) { 'a' <= c <= 'z' || '0' <= c <= '9' }

  /** Lower-cased, alphanumeric characters only. */
  function Clean(w: string): string {
    if w == "" then ""
    else
      var c := LowerChar(w[|w| - 1]);
      Clean(w[..|w| - 1]) + (if IsAlnum(c) then [c] else "")
  }

  predicate IsClean(w: string) { forall i :: 0 <= i < |w| ==> IsAlnum(w[i]) }

  lemma {:induction false} CleanIsClean(w: string)
    ensures IsClean(Clean(w))
    ensures IsClean(w) ==> Clean(w) == w
  {
    if w != "" {
      CleanIsClean(w[..|w| - 1]);
      assert w == w[..|w| - 1] + [w[|w| - 1]];
    }
  }

  /** Cleaning works letter by letter: letters in lower case and digits stay, capitals become small, the rest goes. */
  lemma {:induction false} CleanExactly(a: string, b: string, c: char)
    ensures Clean(a + b) == Clean(a) + Clean(b)
    ensures Clean([c]) == if 'a' <= c <= 'z' || '0' <= c <= '9' then [c] else if 'A' <= c <= 'Z' then [c - 'A' + 'a'] else ""
  {
    assert [c][..0] == "";
    if b == "" {
      assert a + b == a;
    } else {
      CleanExactly(a, b[..|b| - 1], c);
      assert (a + b)[..|a + b| - 1] == a + b[..|b| - 1];
    }
  }

  /** `_add`: a word counts when its clean form is at least four long and new. */
  function Push(labels: seq<string>, w: string): seq<string> {
    if |Clean(w)| >= 4 && Clean(w) !in labels then labels + [Clean(w)] else labels
  }

  /** All distinct clean forms of at least four characters, in order of first appearance. */
  function PushAll(labels: seq<string>, words: seq<string>): seq<string> {
    if words == [] then labels else Push(PushAll(labels, words[..|words| - 1]), words[|words| - 1])
  }

  lemma {:induction false} PushAllConcat(labels: seq<string>, a: seq<string>, b: seq<string>)
    ensures PushAll(labels, a + b) == PushAll(PushAll(labels, a), b)
    ensures PushAll(labels, a) <= PushAll(labels, a + b)
  {
    if b == [] {
      assert a + b == a;
    } else {
      PushAllConcat(labels, a, b[..|b| - 1]);
      assert (a + b)[..|a + b| - 1] == a + b[..|b| - 1];
    }
  }

  ghost predicate GoodLabels(labels: seq<string>) {
    NoDup(labels) && forall w :: w in labels ==> IsClean(w) && |w| >= 4
  }

  lemma {:induction false} PushAllIsGood(words: seq<string>)
    ensures GoodLabels(PushAll([], words))
    ensures forall w :: w in words && |Clean(w)| >= 4 ==> Clean(w) in PushAll([], words)
  {
    if words != [] {
      var front, w := words[..|words| - 1], words[|words| - 1];
      PushAllIsGood(front);
      CleanIsClean(w);
      assert words == front + [w];
    }
  }

  // ----- the candidates, in order -----

  function Row(a: string, words: seq<string>): seq<string> {
    seq(|words|, i requires 0 <= i < |words| => a + words[i])
  }

  function Blends(firsts: seq<string>, words: seq<string>): seq<string> {
    if firsts == [] then [] else Blends(firsts[..|firsts| - 1], words) + Row(firsts[|firsts| - 1], words)
  }

  lemma {:induction false} BlendsContain(firsts: seq<string>, words: seq<string>, a: string, n: string)
    requires a in firsts && n in words
    ensures a + n in Blends(firsts, words)
  {
    var last := firsts[|firsts| - 1];
    if a == last {
      var i :| 0 <= i < |words| && words[i] == n;
      assert Row(last, words)[i] == a + n;
    } else {
      assert firsts == firsts[..|firsts| - 1] + [last];
      BlendsContain(firsts[..|firsts| - 1], words, a, n);
    }
  }

  function Clamp(limit: int): nat {
    if limit > 500 then 500 else if limit < 1 then 1 else limit
  }

  function Take(labels: seq<string>, n: nat): seq<string> {
    if |labels| <= n then labels else labels[..n]
  }

  // ----- the generator -----

  /** Any rearrangement, one arbitrary pick at a time. */
  method Shuffle(xs: seq<string>) returns (ys: seq<string>)
    ensures multiset(ys) == multiset(xs)
  {
    var rest := xs;
    ys := [];
    while rest != []
      invariant multiset(ys) + multiset(rest) == multiset(xs)
      decreases |rest|
    {
      var i :| 0 <= i < |rest|;
      assert rest == rest[..i] + [rest[i]] + rest[i + 1..];
      ys := ys + [rest[i]];
      rest := rest[..i] + rest[i + 1..];
    }
  }

  class Pool {
    var labels: seq<string>
    var seen: set<string>

    ghost predicate Valid()
      reads this
    {
      seen == Elements(labels)
    }

    constructor ()
      ensures Valid() && labels == []
    {
      labels, seen := [], {};
    }

    method Add(word: string)
      requires Valid()
      modifies this
      ensures Valid() && labels == Push(old(labels), word)
    {
      var w := Clean(word);
      if |w| >= 4 && w !in seen {
        seen := seen + {w};
        labels := labels + [w];
      }
    }

    /** Add words one by one; stop as soon as the limit is reached. `full` says whether it was. */
    method AddUntil(words: seq<string>, n: nat) returns (full: bool)
      requires Valid() && |labels| < n
      modifies this
      ensures Valid() && full == (|labels| >= n)
      ensures labels == Take(PushAll(old(labels), words), n)
    {
      var i := 0;
      while i < |words|
        invariant 0 <= i <= |words| && Valid() && |labels| < n
        invariant labels == PushAll(old(labels), words[..i])
      {
        assert words[..i + 1][..i] == words[..i];
        Add(words[i]);
        i := i + 1;
        if |labels| >= n {
          PushAllConcat(old(labels), words[..i], words[i..]);
          assert words[..i] + words[i..] == words;
          return true;
        }
      }
      assert words[..i] == words;
      return false;
    }

    /** The nested loops over two word lists. */
    method AddBlendsUntil(firsts: seq<string>, words: seq<string>, n: nat) returns (full: bool)
      requires Valid() && |labels| < n
      modifies this
      ensures Valid() && full == (|labels| >= n)
      ensures labels == Take(PushAll(old(labels), Blends(firsts, words)), n)
    {
      hide PushAll, Blends, Row, Take;
      assert firsts[..0] == [];
      BlendsOfNone(labels, firsts, words);
      var i := 0;
      while i < |firsts|
        invariant 0 <= i <= |firsts| && Valid() && |labels| < n
        invariant labels == PushAll(old(labels), Blends(firsts[..i], words))
      {
        full := AddUntil(Row(firsts[i], words), n);
        RowDone(old(labels), firsts, words, i, n);
        i := i + 1;
        if full {
          return;
        }
      }
      AllRowsDone(old(labels), firsts, words, n);
      return false;
    }
  }

  lemma BlendsOfNone(labels: seq<string>, firsts: seq<string>, words: seq<string>)
    ensures PushAll(labels, Blends(firsts[..0], words)) == labels
  {
  }

  /** Going through one more row of blends: the labels so far, and the result if the limit is reached in it. */
  lemma RowDone(labels: seq<string>, firsts: seq<string>, words: seq<string>, i: nat, n: nat)
    requires i < |firsts|
    ensures var now := PushAll(PushAll(labels, Blends(firsts[..i], words)), Row(firsts[i], words));
            && (|Take(now, n)| < n ==> Take(now, n) == PushAll(labels, Blends(firsts[..i + 1], words)))
            && (|Take(now, n)| >= n ==> Take(now, n) == Take(PushAll(labels, Blends(firsts, words)), n))
  {
    assert firsts[..i + 1][..i] == firsts[..i];
    var done, row := Blends(firsts[..i], words), Row(firsts[i], words);
    assert Blends(firsts[..i + 1], words) == done + row;
    PushAllConcat(labels, done, row);
    BlendsSplit(firsts, words, i + 1);
    var rest := Blends(firsts, words)[|done + row|..];
    assert Blends(firsts, words) == (done + row) + rest;
    hide PushAll, Blends, Row;
    PushAllConcat(labels, done + row, rest);
  }

  lemma AllRowsDone(labels: seq<string>, firsts: seq<string>, words: seq<string>, n: nat)
    ensures firsts[..|firsts|] == firsts
    ensures forall x: seq<string> :: |x| < n ==> Take(x, n) == x
  {
  }

  /** The blends are each first part with each second part. */
  lemma {:induction false} BlendsExactly(firsts: seq<string>, words: seq<string>, w: string)
    ensures w in Blends(firsts, words) <==> exists a, n :: a in firsts && n in words && w == a + n
  {
    if firsts != [] {
      var front, last := firsts[..|firsts| - 1], firsts[|firsts| - 1];
      BlendsExactly(front, words, w);
      assert firsts == front + [last];
      if w in Row(last, words) {
        var i :| 0 <= i < |words| && w == last + words[i];
      }
      if a, n :| a in firsts && n in words && w == a + n {
        BlendsContain(firsts, words, a, n);
      }
    }
  }

  /** The candidates: the single words, adjective and noun, two syllables. */
  lemma CandidatesExactly(singles: seq<string>, adjectives: seq<string>, nouns: seq<string>, syllables: seq<string>, w: string)
    ensures w in Candidates(singles, adjectives, nouns, syllables) <==>
      || w in singles
      || (exists a, n :: a in adjectives && n in nouns && w == a + n)
      || (exists a, n :: a in syllables && n in syllables && w == a + n)
  {
    hide Blends;
    BlendsExactly(adjectives, nouns, w);
    BlendsExactly(syllables, syllables, w);
  }

  lemma {:induction false} BlendsSplit(firsts: seq<string>, words: seq<string>, i: nat)
    requires i <= |firsts|
    ensures Blends(firsts[..i], words) <= Blends(firsts, words)
  {
    if i == |firsts| {
      assert firsts[..i] == firsts;
    } else {
      BlendsSplit(firsts[..|firsts| - 1], words, i);
      assert firsts[..|firsts| - 1][..i] == firsts[..i];
    }
  }

  /** The words tried before the numbered fallback. */
  function Candidates(singles: seq<string>, adjectives: seq<string>, nouns: seq<string>, syllables: seq<string>): seq<string> {
    singles + (Blends(adjectives, nouns) + Blends(syllables, syllables))
  }

  /**
   * What happens with the word lists once shuffled, over any lists. The numbered words are made from `base`,
   * a shuffle of all labels the candidates gave.
   */
  method Collect(limit: int, singles: seq<string>, adjectives: seq<string>, nouns: seq<string>, syllables: seq<string>)
    returns (labels: seq<string>, ghost base: seq<string>)
    ensures labels == Take(PushAll([], Candidates(singles, adjectives, nouns, syllables) + Blends(base, SUFFIXES)), Clamp(limit))
    ensures multiset(base) == multiset(PushAll([], Candidates(singles, adjectives, nouns, syllables)))
  {
    hide PushAll, Blends, Take;
    var n := Clamp(limit);
    var pool := new Pool();
    base := PushAll([], Candidates(singles, adjectives, nouns, syllables));
    ghost var blends, tails := Blends(adjectives, nouns), Blends(syllables, syllables);
    var full := pool.AddUntil(singles, n);
    TakeSplit([], singles, blends, n);
    if full {
      TakeStays([], singles, (blends + tails) + Blends(base, SUFFIXES), n);
      assert singles + ((blends + tails) + Blends(base, SUFFIXES)) == (singles + (blends + tails)) + Blends(base, SUFFIXES);
      return pool.labels, base;
    }
    full := pool.AddBlendsUntil(adjectives, nouns, n);
    TakeSplit([], singles + blends, tails, n);
    if full {
      TakeStays([], singles + blends, tails + Blends(base, SUFFIXES), n);
      assert (singles + blends) + (tails + Blends(base, SUFFIXES)) == (singles + (blends + tails)) + Blends(base, SUFFIXES);
      return pool.labels, base;
    }
    full := pool.AddBlendsUntil(syllables, syllables, n);
    TakeSplit([], singles + (blends + tails), [], n);
    assert (singles + blends) + tails == singles + (blends + tails);
    if full {
      TakeStays([], singles + (blends + tails), Blends(base, SUFFIXES), n);
      return pool.labels, base;
    }
    var list := Shuffle(pool.labels);
    base := list;
    TakeSplit([], singles + (blends + tails), Blends(base, SUFFIXES), n);
    full := pool.AddBlendsUntil(list, SUFFIXES, n);
    return pool.labels, base;
  }

  /** Going on after `a`: the labels so far are all of them while the limit is not reached. */
  lemma TakeSplit(labels: seq<string>, a: seq<string>, b: seq<string>, n: nat)
    ensures |Take(PushAll(labels, a), n)| < n ==> Take(PushAll(labels, a), n) == PushAll(labels, a)
    ensures |Take(PushAll(labels, a), n)| >= n ==> |PushAll(labels, a)| >= n
    ensures PushAll(PushAll(labels, a), b) == PushAll(labels, a + b)
  {
    PushAllConcat(labels, a, b);
  }

  lemma TakeStays(labels: seq<string>, a: seq<string>, b: seq<string>, n: nat)
    requires |PushAll(labels, a)| >= n
    ensures Take(PushAll(labels, a + b), n) == Take(PushAll(labels, a), n)
  {
    PushAllConcat(labels, a, b);
  }

  // ----- the fallbacks are never needed -----

  // Two dozen adjectives with different first letters, and the four-letter nouns, both in alphabetical order.
  const SOME_ADJECTIVES: seq<string> := [
    "aurora", "bright", "crisp", "drift", "echo", "flux", "glide", "harbor", "iris", "jade", "kite", "luma",
    "moon", "nova", "onyx", "prime", "quantum", "raven", "swift", "tide", "umbra", "vertex", "willow", "zen"]

  const SHORT_NOUNS: seq<string> := [
    "axis", "beam", "byte", "cell", "core", "dawn", "deck", "dock", "edge", "fuse", "gate", "grid", "helm", "jolt",
    "lane", "loop", "mesh", "nest", "node", "path", "root", "span", "sync", "unit", "view", "wave", "zone"]

  /** The first two letters as a number. */
  function Key(w: string): int {
    if |w| >= 2 then w[0] as int * 256 + w[1] as int else -1
  }

  ghost predicate Ascending(ws: seq<string>) {
    forall i :: 0 <= i < |ws| - 1 ==> Key(ws[i]) < Key(ws[i + 1])
  }

  lemma {:induction false} AscendingAt(ws: seq<string>, i: nat, j: nat)
    requires Ascending(ws) && i < j < |ws|
    ensures Key(ws[i]) < Key(ws[j])
  {
    if i < j - 1 {
      AscendingAt(ws, i, j - 1);
    }
    assert Key(ws[j - 1]) < Key(ws[j - 1 + 1]);
  }

  lemma AscendingNoDup(ws: seq<string>)
    requires Ascending(ws)
    ensures |Elements(ws)| == |ws|
  {
    forall i, j | 0 <= i < j < |ws|
      ensures ws[i] != ws[j]
    {
      AscendingAt(ws, i, j);
    }
    NoDupCardinality(ws);
  }

  lemma AdjectivesListed()
    ensures forall i :: 0 <= i < |SOME_ADJECTIVES| ==> SOME_ADJECTIVES[i] in ADJECTIVES
  {
  }

  lemma NounsListed()
    ensures forall i :: 0 <= i < |SHORT_NOUNS| ==> SHORT_NOUNS[i] in NOUNS
  {
  }

  lemma AdjectivesAscend()
    ensures |SOME_ADJECTIVES| == 24
    ensures forall i :: 0 <= i < 23 ==> Key(SOME_ADJECTIVES[i]) < Key(SOME_ADJECTIVES[i + 1])
  {
    assert Key("aurora") == 24949 && Key("bright") == 25202 && Key("crisp") == 25458 && Key("drift") == 25714;
    assert Key("echo") == 25955 && Key("flux") == 26220 && Key("glide") == 26476 && Key("harbor") == 26721;
    assert Key("iris") == 26994 && Key("jade") == 27233 && Key("kite") == 27497 && Key("luma") == 27765;
    assert Key("moon") == 28015 && Key("nova") == 28271 && Key("onyx") == 28526 && Key("prime") == 28786;
    assert Key("quantum") == 29045 && Key("raven") == 29281 && Key("swift") == 29559 && Key("tide") == 29801;
    assert Key("umbra") == 30061 && Key("vertex") == 30309 && Key("willow") == 30569 && Key("zen") == 31333;
  }

  lemma NounsAscend()
    ensures |SHORT_NOUNS| == 27
    ensures forall i :: 0 <= i < 26 ==> Key(SHORT_NOUNS[i]) < Key(SHORT_NOUNS[i + 1])
  {
    assert Key("axis") == 24952 && Key("beam") == 25189 && Key("byte") == 25209 && Key("cell") == 25445;
    assert Key("core") == 25455 && Key("dawn") == 25697 && Key("deck") == 25701 && Key("dock") == 25711;
    assert Key("edge") == 25956 && Key("fuse") == 26229 && Key("gate") == 26465 && Key("grid") == 26482;
    assert Key("helm") == 26725 && Key("jolt") == 27247 && Key("lane") == 27745 && Key("loop") == 27759;
    assert Key("mesh") == 28005 && Key("nest") == 28261 && Key("node") == 28271 && Key("path") == 28769;
    assert Key("root") == 29295 && Key("span") == 29552 && Key("sync") == 29561 && Key("unit") == 30062;
    assert Key("view") == 30313 && Key("wave") == 30561 && Key("zone") == 31343;
  }

  lemma AdjectivesClean()
    ensures forall i :: 0 <= i < |SOME_ADJECTIVES| ==> IsClean(SOME_ADJECTIVES[i])
  {
  }

  lemma NounsClean()
    ensures forall i :: 0 <= i < |SHORT_NOUNS| ==> IsClean(SHORT_NOUNS[i]) && |SHORT_NOUNS[i]| == 4
  {
  }

  function BlendSet(firsts: set<string>, words: set<string>): set<string> {
    set a, n | a in firsts && n in words :: a + n
  }

  lemma {:induction false} OneFirst(a: string, words: set<string>)
    ensures |BlendSet({a}, words)| == |words|
  {
    if words == {} {
      assert BlendSet({a}, words) == {};
    } else {
      var n :| n in words;
      OneFirst(a, words - {n});
      forall m | m in words - {n}
        ensures a + m != a + n
      {
        assert (a + m)[|a|..] == m && (a + n)[|a|..] == n;
      }
      assert BlendSet({a}, words) == BlendSet({a}, words - {n}) + {a + n};
    }
  }

  lemma OtherFirsts(a: string, firsts: set<string>, words: set<string>, length: nat)
    requires a !in firsts && forall n :: n in words ==> |n| == length
    ensures BlendSet(firsts, words) !! BlendSet({a}, words)
    ensures BlendSet(firsts + {a}, words) == BlendSet(firsts, words) + BlendSet({a}, words)
  {
    forall b, m, n | b in firsts && m in words && n in words
      ensures b + m != a + n
    {
      assert (b + m)[..|b + m| - length] == b && (a + n)[..|a + n| - length] == a;
    }
  }

  lemma DisjointSizes(x: set<string>, y: set<string>)
    requires x !! y
    ensures |x + y| == |x| + |y|
  {
  }

  lemma OneMore(next: nat, k: nat, m: nat)
    requires next == k + 1
    ensures next * m == k * m + m
  {
  }

  /** Blends with second parts of one length are all different. */
  lemma {:induction false} BlendsAreDifferent(firsts: set<string>, words: set<string>, length: nat)
    requires forall n :: n in words ==> |n| == length
    ensures |BlendSet(firsts, words)| == |firsts| * |words|
  {
    if firsts == {} {
      assert BlendSet(firsts, words) == {};
    } else {
      var a :| a in firsts;
      var rest := firsts - {a};
      assert firsts == rest + {a} && |rest| + 1 == |firsts|;
      hide BlendSet;
      BlendsAreDifferent(rest, words, length);
      OneFirst(a, words);
      OtherFirsts(a, rest, words, length);
      DisjointSizes(BlendSet(rest, words), BlendSet({a}, words));
      OneMore(|firsts|, |rest|, |words|);
    }
  }

  lemma SubsetCardinality(a: set<string>, b: set<string>)
    requires a <= b
    ensures |a| <= |b|
  {
    assert b == a + (b - a);
  }

  lemma BlendIsLabel(singles: seq<string>, adjectives: seq<string>, nouns: seq<string>, a: string, n: string)
    requires a in adjectives && n in nouns && IsClean(a) && IsClean(n) && |n| == 4
    ensures a + n in PushAll([], singles + Blends(adjectives, nouns))
  {
    hide PushAll, Blends, Clean;
    BlendsContain(adjectives, nouns, a, n);
    PushAllIsGood(singles + Blends(adjectives, nouns));
    CleanIsClean(a + n);
  }

  lemma EnoughBlends(singles: seq<string>, adjectives: seq<string>, nouns: seq<string>, some: set<string>, short: set<string>)
    requires forall a :: a in some ==> a in adjectives && IsClean(a)
    requires forall n :: n in short ==> n in nouns && IsClean(n) && |n| == 4
    ensures |PushAll([], singles + Blends(adjectives, nouns))| >= |some| * |short|
  {
    hide PushAll, Blends;
    var words := singles + Blends(adjectives, nouns);
    var labels := PushAll([], words);
    PushAllIsGood(words);
    NoDupCardinality(labels);
    BlendsAreDifferent(some, short, 4);
    forall a, n | a in some && n in short
      ensures a + n in labels
    {
      BlendIsLabel(singles, adjectives, nouns, a, n);
    }
    SubsetCardinality(BlendSet(some, short), Elements(labels));
  }

  lemma SameWords(xs: seq<string>, ys: seq<string>, w: string)
    requires multiset(xs) == multiset(ys) && w in ys
    ensures w in xs
  {
    assert w in multiset(ys);
  }

  /** Single words and blends alone already give 500 labels, however the lists are shuffled. */
  lemma BlendsSuffice(singles: seq<string>, adjectives: seq<string>, nouns: seq<string>)
    requires multiset(adjectives) == multiset(ADJECTIVES) && multiset(nouns) == multiset(NOUNS)
    ensures |PushAll([], singles + Blends(adjectives, nouns))| >= 500
  {
    hide PushAll, Blends, IsClean;
    var some, short := Elements(SOME_ADJECTIVES), Elements(SHORT_NOUNS);
    forall a | a in some
      ensures a in adjectives && IsClean(a)
    {
      ChosenAdjective(a);
      SameWords(adjectives, ADJECTIVES, a);
    }
    forall n | n in short
      ensures n in nouns && IsClean(n) && |n| == 4
    {
      ChosenNoun(n);
      SameWords(nouns, NOUNS, n);
    }
    EnoughBlends(singles, adjectives, nouns, some, short);
    ChosenCounts();
  }

  lemma ChosenCounts()
    ensures |Elements(SOME_ADJECTIVES)| == 24 && |Elements(SHORT_NOUNS)| == 27
  {
    AdjectivesAscend();
    NounsAscend();
    AscendingNoDup(SOME_ADJECTIVES);
    AscendingNoDup(SHORT_NOUNS);
  }

  lemma ChosenAdjective(a: string)
    requires a in SOME_ADJECTIVES
    ensures a in ADJECTIVES && IsClean(a)
  {
    AdjectivesListed();
    AdjectivesClean();
    hide SOME_ADJECTIVES, ADJECTIVES;
    var i :| 0 <= i < |SOME_ADJECTIVES| && SOME_ADJECTIVES[i] == a;
  }

  lemma ChosenNoun(n: string)
    requires n in SHORT_NOUNS
    ensures n in NOUNS && IsClean(n) && |n| == 4
  {
    NounsListed();
    NounsClean();
    hide SHORT_NOUNS, NOUNS;
    var i :| 0 <= i < |SHORT_NOUNS| && SHORT_NOUNS[i] == n;
  }

  /**
   * The generator: for every limit and every outcome of the shuffles, exactly max(1, min(limit, 500))
   * labels, pairwise distinct, lower-case alphanumeric and at least four long. They are the first distinct
   * words of the singles and blends; the syllables and the numbered words never contribute.
   */
  method GenerateRandomLabels(limit: int)
    returns (labels: seq<string>, ghost singles: seq<string>, ghost adjectives: seq<string>, ghost nouns: seq<string>)
    ensures |labels| == (if limit > 500 then 500 else if limit < 1 then 1 else limit) && GoodLabels(labels)
    ensures multiset(adjectives) == multiset(ADJECTIVES) && multiset(nouns) == multiset(NOUNS)
    ensures multiset(singles) == multiset(ADJECTIVES) + multiset(NOUNS)
    ensures labels <= PushAll([], singles + Blends(adjectives, nouns))
  {
    hide PushAll, Blends, ADJECTIVES, NOUNS, SYLLABLES;
    var adj := Shuffle(ADJECTIVES);
    var nn := Shuffle(NOUNS);
    var both := Shuffle(adj + nn);
    var syllables := Shuffle(SYLLABLES);
    adjectives, nouns, singles := adj, nn, both;
    ghost var base;
    labels, base := Collect(limit, both, adj, nn, syllables);
    BlendsSuffice(singles, adjectives, nouns);
    ghost var blends, tails := Blends(adjectives, nouns), Blends(syllables, syllables) + Blends(base, SUFFIXES);
    assert Candidates(singles, adjectives, nouns, syllables) + Blends(base, SUFFIXES) == (singles + blends) + tails;
    TakeStays([], singles + blends, tails, Clamp(limit));
    PushAllIsGood(singles + blends);
  }
}
