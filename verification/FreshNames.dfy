/** Fresh ids and labels for Personal providers (packages/provider/src/config-service.ts:688-698, 744-757). */
module FreshNames {
  import opened Options
  import opened Numerals
  import opened Tokenizer

  lemma {:induction false} DecimalIsInjective(m: nat, n: nat)
    requires Decimal(m) == Decimal(n)
    ensures m == n
    decreases m
  {
    DecimalLast(m);
    DecimalLast(n);
    if m >= 10 && n >= 10 {
      DecimalIsInjective(m / 10, n / 10);
    }
  }

  lemma DecimalLast(n: nat)
    ensures Decimal(n) != [] && Decimal(n)[|Decimal(n)| - 1] == Digit(n % 10)
    ensures Decimal(n)[..|Decimal(n)| - 1] == if n < 10 then [] else Decimal(n / 10)
    ensures n >= 10 ==> |Decimal(n)| >= 2
  {
    if n >= 10 {
      assert |Decimal(n / 10)| >= 1;
    }
  }

  /** The candidates after the base: base, separator, suffix. */
  function Candidate(base: string, separator: string, suffix: nat): string {
    base + separator + Decimal(suffix)
  }

  lemma CandidateIsInjective(base: string, separator: string, m: nat, n: nat)
    requires Candidate(base, separator, m) == Candidate(base, separator, n)
    ensures m == n
  {
    var head := base + separator;
    assert Candidate(base, separator, m)[|head|..] == Decimal(m);
    assert Candidate(base, separator, n)[|head|..] == Decimal(n);
    DecimalIsInjective(m, n);
  }

  /** The suffixes from 2 to n - 1 that are taken give that many different occupied names. */
  lemma {:induction false} Pigeonhole(base: string, separator: string, occupied: set<string>, n: nat)
    requires n >= 2 && forall k :: 2 <= k < n ==> Candidate(base, separator, k) in occupied
    ensures n - 2 <= |occupied|
    decreases n
  {
    if n > 2 {
      var name := Candidate(base, separator, n - 1);
      var fewer := occupied - {name};
      forall k | 2 <= k < n - 1 ensures Candidate(base, separator, k) in fewer {
        if Candidate(base, separator, k) == name {
          CandidateIsInjective(base, separator, k, n - 1);
        }
      }
      Pigeonhole(base, separator, fewer, n - 1);
      assert |occupied| == |fewer| + 1;
    }
  }

  /** Case folding may change the base, but not a separator and digits behind it. */
  ghost predicate KeepsSuffixes(fold: string -> string, base: string, separator: string) {
    forall n: nat :: fold(Candidate(base, separator, n)) == Candidate(fold(base), separator, n)
  }

  /** The suffix loop that ids and labels share: the base if its folded form is free, otherwise the first suffix that
      makes it so.  The search ends after at most one candidate more than there are occupied names. */
  method NextFreeName(base: string, separator: string, occupied: set<string>, fold: string -> string)
      returns (name: string, ghost suffix: nat)
    requires KeepsSuffixes(fold, base, separator)
    ensures fold(name) !in occupied
    ensures fold(base) !in occupied ==> name == base
    ensures fold(base) in occupied ==>
      && 2 <= suffix <= |occupied| + 2 && name == Candidate(base, separator, suffix)
      && forall k :: 2 <= k < suffix ==> fold(Candidate(base, separator, k)) in occupied
  {
    suffix := 2;
    if fold(base) !in occupied {
      return base, 2;
    }
    var k := 2;
    while true
      invariant k >= 2 && forall n :: 2 <= n < k ==> Candidate(fold(base), separator, n) in occupied
      decreases |occupied| + 2 - k
    {
      Pigeonhole(fold(base), separator, occupied, k);
      var candidate := Candidate(base, separator, k);
      if fold(candidate) !in occupied {
        return candidate, k;
      }
      k := k + 1;
      Pigeonhole(fold(base), separator, occupied, k);
    }
  }

  predicate IsPlain(c: char) {
    'a' <= c <= 'z' || '0' <= c <= '9'
  }

  /** Every run of other characters becomes one dash. */
  function Dashed(s: string): string {
    if s == [] then []
    else
      var before, last := Dashed(s[..|s| - 1]), s[|s| - 1];
      if IsPlain(last) then before + [last]
      else if before != [] && before[|before| - 1] == '-' then before
      else before + ['-']
  }

  function StripStart(s: string): string {
    if s != [] && s[0] == '-' then StripStart(s[1..]) else s
  }

  function StripEnd(s: string): string {
    if s != [] && s[|s| - 1] == '-' then StripEnd(s[..|s| - 1]) else s
  }

  /** normalizeProviderIdSeed. */
  function NormalizedSeed(value: string, fold: string -> string): string {
    var seed := StripEnd(StripStart(Dashed(fold(Trim(value)))));
    if seed == "" then "new-provider" else seed
  }

  ghost predicate SingleDashes(s: string) {
    && (forall k :: 0 <= k < |s| ==> IsPlain(s[k]) || s[k] == '-')
    && forall k :: 0 <= k < |s| - 1 ==> !(s[k] == '-' && s[k + 1] == '-')
  }

  /** Words of small letters and digits, joined by single dashes. */
  ghost predicate IsSeed(s: string) {
    SingleDashes(s) && s != [] && s[0] != '-' && s[|s| - 1] != '-'
  }

  lemma {:induction false} DashedIsSingle(s: string)
    ensures SingleDashes(Dashed(s))
  {
    if s != [] {
      DashedIsSingle(s[..|s| - 1]);
    }
  }

  lemma {:induction false} StrippedIsSingle(s: string)
    requires SingleDashes(s)
    ensures SingleDashes(StripStart(s)) && (StripStart(s) != [] ==> StripStart(s)[0] != '-')
    decreases |s|
  {
    if s != [] && s[0] == '-' {
      StrippedIsSingle(s[1..]);
    }
  }

  lemma {:induction false} EndStripped(s: string)
    requires SingleDashes(s)
    ensures SingleDashes(StripEnd(s)) && StripEnd(s) <= s
    ensures StripEnd(s) != [] ==> StripEnd(s)[|StripEnd(s)| - 1] != '-'
    decreases |s|
  {
    if s != [] && s[|s| - 1] == '-' {
      EndStripped(s[..|s| - 1]);
    }
  }

  lemma {:induction false} DashedOfSingle(s: string)
    requires SingleDashes(s)
    ensures Dashed(s) == s
    decreases |s|
  {
    if s != [] {
      DashedOfSingle(s[..|s| - 1]);
      assert s == s[..|s| - 1] + [s[|s| - 1]];
    }
  }

  /** Whatever was given, the normalised seed is words of small letters and digits joined by single dashes; and such a
      seed is left alone, if folding and trimming leave it alone. */
  lemma NormalizedSeedIsSeed(value: string, fold: string -> string)
    ensures IsSeed(NormalizedSeed(value, fold))
    ensures IsSeed(value) && fold(Trim(value)) == value ==> NormalizedSeed(value, fold) == value
  {
    var dashed := Dashed(fold(Trim(value)));
    DashedIsSingle(fold(Trim(value)));
    StrippedIsSingle(dashed);
    EndStripped(StripStart(dashed));
    if IsSeed(value) && fold(Trim(value)) == value {
      DashedOfSingle(value);
    }
  }

  // ---------- which words the seed consists of ----------

  /** The longest runs of small letters and digits, in order. */
  ghost function Words(s: string): seq<string> {
    if s == [] then []
    else
      var before, last := s[..|s| - 1], s[|s| - 1];
      if !IsPlain(last) then Words(before)
      else if before != [] && IsPlain(before[|before| - 1]) && Words(before) != [] then
        Words(before)[..|Words(before)| - 1] + [Words(before)[|Words(before)| - 1] + [last]]
      else Words(before) + [[last]]
  }

  ghost function Joined(words: seq<string>): string {
    if words == [] then ""
    else if |words| == 1 then words[0]
    else Joined(words[..|words| - 1]) + "-" + words[|words| - 1]
  }

  ghost predicate EndsPlain(s: string) {
    s != [] && IsPlain(s[|s| - 1])
  }

  lemma {:induction false} StripStartAppend(a: string, c: char)
    ensures StripStart(a + [c]) == if StripStart(a) == "" then StripStart([c]) else StripStart(a) + [c]
    decreases |a|
  {
    if a == [] {
      assert a + [c] == [c];
    } else if a[0] == '-' {
      assert (a + [c])[1..] == a[1..] + [c];
      StripStartAppend(a[1..], c);
    }
  }

  lemma JoinedOneMore(words: seq<string>, word: string)
    ensures Joined(words + [word]) == if words == [] then word else Joined(words) + "-" + word
  {
    assert (words + [word])[..|words|] == words;
  }

  lemma LongerLastWord(words: seq<string>, c: char)
    requires words != []
    ensures Joined(words[..|words| - 1] + [words[|words| - 1] + [c]]) == Joined(words) + [c]
  {
    hide Joined;
    var front, last := words[..|words| - 1], words[|words| - 1];
    assert words == front + [last];
    JoinedOneMore(front, last);
    JoinedOneMore(front, last + [c]);
    Regrouped(Joined(front) + "-", last, [c]);
  }

  lemma Regrouped(a: string, b: string, c: string)
    ensures a + (b + c) == a + b + c
  {
  }

  lemma {:induction false} DashedEnds(s: string)
    ensures s != [] ==> Dashed(s) != [] && Dashed(s)[|Dashed(s)| - 1] == if EndsPlain(s) then s[|s| - 1] else '-'
    decreases |s|
  {
    if s != [] && !EndsPlain(s) {
      DashedEnds(s[..|s| - 1]);
    }
  }

  /** What is left of the dashes: they separate the words, and a last one may be left behind them. */
  lemma {:induction false} DashesSeparate(s: string)
    ensures StripStart(Dashed(s)) == Joined(Words(s)) + if Words(s) != [] && !EndsPlain(s) then "-" else ""
    ensures EndsPlain(s) ==> Words(s) != []
    ensures forall k :: 0 <= k < |Words(s)| ==> EndsPlain(Words(s)[k])
    decreases |s|
  {
    hide Joined, Words, Dashed, StripStart, IsPlain;
    if s == [] {
      NothingJoined();
    } else {
      var before, last := s[..|s| - 1], s[|s| - 1];
      DashesSeparate(before);
      WordsAreSomething(Words(before));
      if IsPlain(last) {
        PlainBehind(s);
      } else {
        DashBehind(s);
      }
    }
  }

  lemma PlainBehind(s: string)
    requires s != [] && IsPlain(s[|s| - 1])
    requires var before := s[..|s| - 1];
      && StripStart(Dashed(before)) == Joined(Words(before)) + (if Words(before) != [] && !EndsPlain(before) then "-" else "")
      && (EndsPlain(before) ==> Words(before) != []) && (forall k :: 0 <= k < |Words(before)| ==> EndsPlain(Words(before)[k]))
      && (Words(before) == [] <==> Joined(Words(before)) == "")
    ensures StripStart(Dashed(s)) == Joined(Words(s)) && Words(s) != []
    ensures forall k :: 0 <= k < |Words(s)| ==> EndsPlain(Words(s)[k])
  {
    hide Joined, StripStart;
    var before, last := s[..|s| - 1], s[|s| - 1];
    StripStartAppend(Dashed(before), last);
    assert StripStart([last]) == [last] by { NoDash(last); }
    if EndsPlain(before) {
      LongerLastWord(Words(before), last);
    } else {
      JoinedOneMore(Words(before), [last]);
    }
  }

  lemma NoDash(c: char)
    requires IsPlain(c)
    ensures StripStart([c]) == [c]
  {
  }

  lemma OneDash()
    ensures StripStart(['-']) == ""
  {
    assert ['-'][1..] == [];
  }

  lemma DashBehind(s: string)
    requires s != [] && !IsPlain(s[|s| - 1])
    requires var before := s[..|s| - 1];
      && StripStart(Dashed(before)) == Joined(Words(before)) + (if Words(before) != [] && !EndsPlain(before) then "-" else "")
      && (Words(before) == [] <==> Joined(Words(before)) == "")
      && (EndsPlain(before) ==> Words(before) != [])
    ensures Words(s) == Words(s[..|s| - 1])
    ensures StripStart(Dashed(s)) == Joined(Words(s)) + if Words(s) != [] then "-" else ""
  {
    hide Joined, StripStart;
    var before := s[..|s| - 1];
    DashedEnds(before);
    StripStartAppend(Dashed(before), '-');
    OneDash();
    if before == [] {
      assert Dashed(before) == [];
    }
  }

  lemma NothingJoined()
    ensures Words("") == [] && Joined([]) == "" && StripStart(Dashed("")) == ""
  {
  }

  lemma {:induction false} WordsAreSomething(words: seq<string>)
    requires forall k :: 0 <= k < |words| ==> EndsPlain(words[k])
    ensures words == [] <==> Joined(words) == ""
    ensures words != [] ==> EndsPlain(Joined(words))
  {
  }

  lemma {:induction false} EndsPlainStays(s: string)
    requires EndsPlain(s)
    ensures StripEnd(s) == s && StripEnd(s + "-") == s
  {
    assert (s + "-")[..|s|] == s;
  }

  /** Exactly what normalising gives: the longest runs of small letters and digits of the trimmed and folded text, joined by
      single dashes, or the default if there are none. */
  lemma NormalizedSeedIsWords(value: string, fold: string -> string)
    ensures var words := Words(fold(Trim(value)));
      NormalizedSeed(value, fold) == if words == [] then "new-provider" else Joined(words)
  {
    hide Joined, Words, Dashed;
    var text := fold(Trim(value));
    DashesSeparate(text);
    WordsAreSomething(Words(text));
    if Words(text) != [] {
      EndsPlainStays(Joined(Words(text)));
    }
  }

  /** The base of an id: the normalised template id, if there is one. */
  function IdBase(template: Option<string>, fold: string -> string): string {
    if template.Some? && template.value != "" then NormalizedSeed(template.value, fold) else "new-provider"
  }

  /** nextPersonalProviderId: the base if it is free, otherwise the base with the first free suffix, which is at most the
      number of occupied ids plus two.  Ids are compared as they are. */
  method NextPersonalProviderId(occupied: set<string>, template: Option<string>, fold: string -> string)
      returns (id: string, ghost suffix: nat)
    ensures id !in occupied && (IdBase(template, fold) !in occupied ==> id == IdBase(template, fold))
    ensures IdBase(template, fold) in occupied ==>
      && 2 <= suffix <= |occupied| + 2 && id == Candidate(IdBase(template, fold), "-", suffix)
      && forall k :: 2 <= k < suffix ==> Candidate(IdBase(template, fold), "-", k) in occupied
    ensures (template == None || template == Some("")) && "new-provider" !in occupied ==> id == "new-provider"
  {
    id, suffix := NextFreeName(IdBase(template, fold), "-", occupied, s => s);
  }

  function LabelBase(seed: string): string {
    if Trim(seed) == "" then "new-provider" else Trim(seed)
  }

  /** A name takes a label up to surrounding white space and case; a blank one takes none. */
  predicate Takes(name: Option<string>, text: string, fold: string -> string) {
    name.Some? && fold(Trim(name.value)) != "" && fold(Trim(name.value)) == fold(text)
  }

  ghost predicate IsTaken(names: seq<Option<string>>, text: string, fold: string -> string) {
    exists i :: 0 <= i < |names| && Takes(names[i], text, fold)
  }

  /** nextPersonalProviderLabel: the trimmed seed if no provider name takes it, otherwise the seed with the first suffix
      that makes it a label no name takes; that suffix is at most the number of names plus two. */
  method NextPersonalProviderLabel(seed: string, names: seq<Option<string>>, fold: string -> string)
      returns (chosen: string, ghost suffix: nat)
    requires KeepsSuffixes(fold, LabelBase(seed), " ")
    ensures !IsTaken(names, chosen, fold)
    ensures !IsTaken(names, LabelBase(seed), fold) ==> chosen == LabelBase(seed)
    ensures IsTaken(names, LabelBase(seed), fold) ==>
      && 2 <= suffix <= |names| + 2 && chosen == Candidate(LabelBase(seed), " ", suffix)
      && forall k :: 2 <= k < suffix ==> IsTaken(names, Candidate(LabelBase(seed), " ", k), fold)
    ensures (forall c :: c in seed ==> IsSpace(c)) && !IsTaken(names, "new-provider", fold) ==> chosen == "new-provider"
  {
    ghost var first, last := TrimIsTrim(seed);
    assert (forall c :: c in seed ==> IsSpace(c)) ==> Trim(seed) == "" by {
      assert first < last ==> seed[first] in seed;
    }
    var labels: set<string> := {};
    for i := 0 to |names|
      invariant |labels| <= i
      invariant forall l :: l in labels <==> exists j :: 0 <= j < i && names[j].Some? && l == fold(Trim(names[j].value)) && l != ""
    {
      if names[i].Some? && fold(Trim(names[i].value)) != "" {
        labels := labels + {fold(Trim(names[i].value))};
      }
    }
    assert forall text :: fold(text) in labels <==> IsTaken(names, text, fold);
    chosen, suffix := NextFreeName(LabelBase(seed), " ", labels, fold);
  }
}
