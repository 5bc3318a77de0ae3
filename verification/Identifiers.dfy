/** Random identifiers with a counter behind them (scaffold/src/suiRandom.cpp), and the
    upload ids made of them (services/file/source/fileRpcService.cpp). */
module Identifiers {
  import opened Base

  datatype Kind = DIGIT | ALPHA | ALL

  const DIGITS := "0123456789"
  const LETTERS := "abcdefghijklmnopqrstuvwxyzABCDEFGHIJKLMNOPQRSTUVWXYZ"

  function Alphabet(kind: Kind): (a: string)
    ensures |a| > 0
  {
    match kind
    case DIGIT => DIGITS
    case ALPHA => LETTERS
    case ALL => LETTERS + DIGITS
  }

  /** The counter as std::ostringstream prints it. */
  function Decimal(n: nat): (s: string)
    ensures |s| >= 1 && (|s| == 1 <==> n < 10)
  {
    if n < 10 then [DIGITS[n]] else Decimal(n / 10) + [DIGITS[n % 10]]
  }

  lemma {:induction false} DecimalInjective(m: nat, n: nat)
    requires Decimal(m) == Decimal(n)
    ensures m == n
    decreases m + n
  {
    var s := Decimal(m);
    assert s[|s| - 1] == DIGITS[m % 10] == DIGITS[n % 10];
    assert m % 10 == n % 10;
    if m >= 10 {
      assert s[..|s| - 1] == Decimal(m / 10) == Decimal(n / 10);
      DecimalInjective(m / 10, n / 10);
    }
  }

  /** The random part: one character for each draw of the generator. */
  function Letters(kind: Kind, draws: seq<nat>): (s: string)
    ensures |s| == |draws|
  {
    seq(|draws|, i requires 0 <= i < |draws| => Alphabet(kind)[draws[i] % |Alphabet(kind)|])
  }

  function UuidFrom(kind: Kind, draws: seq<nat>, counter: nat): string {
    Letters(kind, draws) + Decimal(counter)
  }

  /** Identifiers of one length tell their counters apart, whatever was drawn. */
  lemma UuidCounter(k: Kind, draws: seq<nat>, m: nat, k': Kind, draws': seq<nat>, n: nat)
    requires |draws| == |draws'| && UuidFrom(k, draws, m) == UuidFrom(k', draws', n)
    ensures m == n
  {
    var a, b := UuidFrom(k, draws, m), UuidFrom(k', draws', n);
    assert a[|draws|..] == Decimal(m) && b[|draws|..] == Decimal(n);
    DecimalInjective(m, n);
  }

  class RandomUtil {
    var counter: nat  // std::atomic<unsigned int>

    constructor ()
      ensures counter == 0
    {
      counter := 0;
    }

    /** draws are what the generator will return, one for each requested character. */
    method Uuid(kind: Kind, draws: seq<nat>) returns (result: string)
      modifies this
      ensures result == UuidFrom(kind, draws, old(counter))
      ensures counter == (old(counter) + 1) % TWO_32
    {
      var letters := Alphabet(kind);
      result := "";
      for i := 0 to |draws|
        invariant result == Letters(kind, draws)[..i]
      {
        var index := draws[i] % |letters|;
        result := result + [letters[index]];
      }
      result := result + Decimal(counter);
      counter := (counter + 1) % TWO_32;
    }
  }

  // ------------------------------------------------------------------- serial calls

  datatype Request = Request(kind: Kind, draws: seq<nat>)

  /** The identifiers that a series of calls returns. */
  function Issue(counter: nat, requests: seq<Request>): (ids: seq<string>)
    ensures |ids| == |requests|
    decreases |requests|
  {
    if requests == [] then []
    else [UuidFrom(requests[0].kind, requests[0].draws, counter)] + Issue((counter + 1) % TWO_32, requests[1..])
  }

  /** The counter before call i, for a counter that starts at the given value. */
  function CounterAt(counter: nat, i: nat): nat {
    (counter + i) % TWO_32
  }

  lemma CounterAfter(counter: nat, i: nat)
    requires counter < TWO_32 && i > 0
    ensures CounterAt((counter + 1) % TWO_32, i - 1) == CounterAt(counter, i)
  {
  }

  lemma CountersApart(counter: nat, i: nat, j: nat)
    requires i <= j
    ensures CounterAt(counter, i) == CounterAt(counter, j) <==> (j - i) % TWO_32 == 0
  {
    var a, b := counter + i, counter + j;
    assert a == a / TWO_32 * TWO_32 + a % TWO_32 && b == b / TWO_32 * TWO_32 + b % TWO_32;
    var d, q := j - i, b / TWO_32 - a / TWO_32;
    assert d == d / TWO_32 * TWO_32 + d % TWO_32;
    assert d == q * TWO_32 + (b % TWO_32 - a % TWO_32);
  }

  lemma {:induction false} IssuedAt(counter: nat, requests: seq<Request>, i: nat)
    requires counter < TWO_32 && i < |requests|
    ensures Issue(counter, requests)[i] == UuidFrom(requests[i].kind, requests[i].draws, CounterAt(counter, i))
    decreases i
  {
    hide CounterAt, UuidFrom;
    if i > 0 {
      IssuedAt((counter + 1) % TWO_32, requests[1..], i - 1);
      CounterAfter(counter, i);
    } else {
      CounterStart(counter);
    }
  }

  lemma CounterStart(counter: nat)
    requires counter < TWO_32
    ensures CounterAt(counter, 0) == counter
  {
  }

  /** Two calls that ask for the same length return the same identifier only if they
      are a multiple of 2^32 calls apart. */
  lemma SameIdApart(counter: nat, requests: seq<Request>, i: nat, j: nat)
    requires counter < TWO_32 && i <= j < |requests| && |requests[i].draws| == |requests[j].draws|
    ensures Issue(counter, requests)[i] == Issue(counter, requests)[j] ==> (j - i) % TWO_32 == 0
  {
    IssuedAt(counter, requests, i);
    IssuedAt(counter, requests, j);
    CountersApart(counter, i, j);
    hide CounterAt, UuidFrom, Issue;
    if Issue(counter, requests)[i] == Issue(counter, requests)[j] {
      UuidCounter(requests[i].kind, requests[i].draws, CounterAt(counter, i),
                  requests[j].kind, requests[j].draws, CounterAt(counter, j));
    }
  }

  /** Freshness: of fewer than 2^32 calls in a row, no two that ask for the same length
      return the same identifier, whatever the random draws. */
  lemma IdsDistinct(counter: nat, requests: seq<Request>, i: nat, j: nat)
    requires counter < TWO_32 && i < j < |requests| && j - i < TWO_32
    requires |requests[i].draws| == |requests[j].draws|
    ensures Issue(counter, requests)[i] != Issue(counter, requests)[j]
  {
    SameIdApart(counter, requests, i, j);
    hide Issue;
  }

  /** The bound is exact: two calls with the same draws return the same identifier if
      and only if they are a multiple of 2^32 calls apart. */
  lemma SameDrawsCollideIff(counter: nat, requests: seq<Request>, i: nat, j: nat)
    requires counter < TWO_32 && i <= j < |requests| && requests[i] == requests[j]
    ensures Issue(counter, requests)[i] == Issue(counter, requests)[j] <==> (j - i) % TWO_32 == 0
  {
    SameIdApart(counter, requests, i, j);
    IssuedAt(counter, requests, i);
    IssuedAt(counter, requests, j);
    CountersApart(counter, i, j);
    hide Issue, CounterAt, UuidFrom;
  }

  // --------------------------------------------------------------------- upload ids

  const MD5_LENGTH := 32
  const SUFFIX_LENGTH := 10

  function UploadId(md5: string, suffix: string): string {
    md5 + "_" + suffix
  }

  ghost predicate MadeOf(id: string, md5: string, draws: seq<nat>, c: nat) {
    |md5| == MD5_LENGTH && |draws| == SUFFIX_LENGTH && id == UploadId(md5, UuidFrom(ALL, draws, c))
  }

  /** The id was made of some MD5 and an identifier with a counter below the given one. */
  ghost predicate MadeBefore(id: string, counter: nat) {
    exists md5: string, draws: seq<nat>, c: nat :: MadeOf(id, md5, draws, c) && c < counter
  }

  lemma MadeLater(id: string, counter: nat, later: nat)
    requires MadeBefore(id, counter) && counter <= later
    ensures MadeBefore(id, later)
  {
    var md5: string, draws: seq<nat>, c: nat :| MadeOf(id, md5, draws, c) && c < counter;
  }

  lemma UploadIdFresh(md5: string, draws: seq<nat>, counter: nat, id: string)
    requires |md5| == MD5_LENGTH && |draws| == SUFFIX_LENGTH && MadeBefore(id, counter)
    ensures UploadId(md5, UuidFrom(ALL, draws, counter)) != id
  {
    var md5': string, draws': seq<nat>, c: nat :| MadeOf(id, md5', draws', c) && c < counter;
    var mine := UploadId(md5, UuidFrom(ALL, draws, counter));
    Suffix(md5, UuidFrom(ALL, draws, counter));
    Suffix(md5', UuidFrom(ALL, draws', c));
    hide UuidFrom, UploadId;
    if mine == id {
      UuidCounter(ALL, draws, counter, ALL, draws', c);
    }
  }

  lemma Suffix(md5: string, suffix: string)
    ensures UploadId(md5, suffix)[|md5| + 1..] == suffix
  {
  }

  /** The collision loop: while fewer than 2^32 identifiers have been drawn, it is left
      after its first pass, with an id that no upload has. */
  method CreateUploadId(random: RandomUtil, md5: string, used: set<string>, draws: nat -> seq<nat>)
    returns (uploadId: string, passes: nat)
    requires |md5| == MD5_LENGTH && forall k :: |draws(k)| == SUFFIX_LENGTH
    requires random.counter + 1 < TWO_32
    requires forall id :: id in used ==> MadeBefore(id, random.counter)
    modifies random
    ensures passes == 1 && random.counter == old(random.counter) + 1
    ensures uploadId !in used
    ensures forall id :: id in used + {uploadId} ==> MadeBefore(id, random.counter)
  {
    passes, uploadId := 0, "";
    hide UuidFrom, UploadId, MadeBefore;
    var found := false;
    while !found
      invariant random.counter == old(random.counter) + passes
      invariant passes == if found then 1 else 0
      invariant found ==> uploadId !in used && MadeOf(uploadId, md5, draws(0), old(random.counter))
      decreases 1 - passes
    {
      var suffix := random.Uuid(ALL, draws(passes));
      uploadId := UploadId(md5, suffix);
      forall id | id in used ensures uploadId != id {
        UploadIdFresh(md5, draws(passes), old(random.counter), id);
      }
      found := uploadId !in used;
      passes := passes + 1;
    }
    MadeNow(uploadId, md5, draws(0), old(random.counter));
    forall id | id in used + {uploadId} ensures MadeBefore(id, random.counter) {
      if id in used {
        MadeLater(id, old(random.counter), random.counter);
      }
    }
  }

  lemma MadeNow(id: string, md5: string, draws: seq<nat>, c: nat)
    requires MadeOf(id, md5, draws, c)
    ensures MadeBefore(id, c + 1)
  {
  }

  // ----------------------------------------------------- what identifiers look like

  predicate IsDigit(c: char) { '0' <= c <= '9' }
  predicate IsLetter(c: char) { 'a' <= c <= 'z' || 'A' <= c <= 'Z' }

  /** The characters that a kind of identifier is drawn from. */
  predicate OfKind(kind: Kind, c: char) {
    match kind
    case DIGIT => IsDigit(c)
    case ALPHA => IsLetter(c)
    case ALL => IsDigit(c) || IsLetter(c)
  }

  function SizeOf(kind: Kind): nat {
    match kind
    case DIGIT => 10
    case ALPHA => 52
    case ALL => 62
  }

  lemma DigitAt(i: nat)
    requires i < 10
    ensures |DIGITS| == 10 && DIGITS[i] as int == '0' as int + i
  {
    assert i == 0 || i == 1 || i == 2 || i == 3 || i == 4 || i == 5 || i == 6 || i == 7 || i == 8 || i == 9;
  }

  lemma LowerAt(i: nat)
    requires i < 26
    ensures "abcdefghijklmnopqrstuvwxyz"[i] as int == 'a' as int + i
  {
    assert i == 0 || i == 1 || i == 2 || i == 3 || i == 4 || i == 5 || i == 6 || i == 7 || i == 8 || i == 9 || i == 10
           || i == 11 || i == 12 || i == 13 || i == 14 || i == 15 || i == 16 || i == 17 || i == 18 || i == 19 || i == 20
           || i == 21 || i == 22 || i == 23 || i == 24 || i == 25;
  }

  lemma UpperAt(i: nat)
    requires i < 26
    ensures "ABCDEFGHIJKLMNOPQRSTUVWXYZ"[i] as int == 'A' as int + i
  {
    assert i == 0 || i == 1 || i == 2 || i == 3 || i == 4 || i == 5 || i == 6 || i == 7 || i == 8 || i == 9 || i == 10
           || i == 11 || i == 12 || i == 13 || i == 14 || i == 15 || i == 16 || i == 17 || i == 18 || i == 19 || i == 20
           || i == 21 || i == 22 || i == 23 || i == 24 || i == 25;
  }

  lemma LetterAt(i: nat)
    requires i < 52
    ensures |LETTERS| == 52
    ensures LETTERS[i] as int == if i < 26 then 'a' as int + i else 'A' as int + i - 26
  {
    var l, u := "abcdefghijklmnopqrstuvwxyz", "ABCDEFGHIJKLMNOPQRSTUVWXYZ";
    assert LETTERS == l + u;
    if i < 26 {
      LowerAt(i);
      assert (l + u)[i] == l[i];
    } else {
      UpperAt(i - 26);
      assert (l + u)[i] == u[i - 26];
    }
  }

  /** An alphabet lists the characters of its kind, each once. */
  lemma AlphabetMeans(kind: Kind)
    ensures |Alphabet(kind)| == SizeOf(kind) && NoDup(Alphabet(kind))
    ensures forall c :: c in Alphabet(kind) <==> OfKind(kind, c)
  {
    DigitsMean();
    LettersMean();
    hide IsDigit, IsLetter;
    if kind == ALL {
      Disjoint();
      var a := LETTERS + DIGITS;
      assert forall i :: 0 <= i < |LETTERS| ==> a[i] == LETTERS[i] && LETTERS[i] in LETTERS;
      assert forall i :: |LETTERS| <= i < |a| ==> a[i] == DIGITS[i - |LETTERS|] && DIGITS[i - |LETTERS|] in DIGITS;
      assert forall c :: c in a <==> c in LETTERS || c in DIGITS;
    }
  }

  lemma Disjoint()
    ensures forall c :: !(IsDigit(c) && IsLetter(c))
  {
  }

  lemma DigitsMean()
    ensures |DIGITS| == 10 && NoDup(DIGITS) && forall c :: c in DIGITS <==> IsDigit(c)
  {
    forall i: nat | i < 10 ensures DIGITS[i] as int == '0' as int + i { DigitAt(i); }
    forall c | IsDigit(c) ensures c in DIGITS {
      assert DIGITS[c as int - '0' as int] == c;
    }
  }

  lemma LettersMean()
    ensures |LETTERS| == 52 && NoDup(LETTERS) && forall c :: c in LETTERS <==> IsLetter(c)
  {
    LetterAt(0);
    AllLetters(LETTERS) by {
      forall i: nat | i < 52 ensures LETTERS[i] as int == if i < 26 then 'a' as int + i else 'A' as int + i - 26 {
        LetterAt(i);
      }
    }
  }

  lemma AllLetters(s: string)
    requires |s| == 52
    requires forall i: nat :: i < 52 ==> s[i] as int == if i < 26 then 'a' as int + i else 'A' as int + i - 26
    ensures NoDup(s) && forall c :: c in s <==> IsLetter(c)
  {
    forall c | IsLetter(c) ensures c in s {
      if c <= 'Z' {
        assert s[26 + (c as int - 'A' as int)] == c;
      } else {
        assert s[c as int - 'a' as int] == c;
      }
    }
  }

  /** The number that a string of digits denotes. */
  function Value(s: string): int {
    if s == "" then 0 else 10 * Value(s[..|s| - 1]) + (s[|s| - 1] as int - '0' as int)
  }

  /** The counter is printed as the decimal numeral of its value, without leading zeros. */
  lemma {:induction false} DecimalMeans(n: nat)
    ensures Value(Decimal(n)) == n && (forall c :: c in Decimal(n) ==> IsDigit(c))
    ensures n > 0 ==> Decimal(n)[0] != '0'
    decreases n
  {
    DigitAt(n % 10);
    var s := Decimal(n);
    if n < 10 {
      assert s[..0] == "" && s == [DIGITS[n]];
    } else {
      DecimalMeans(n / 10);
      assert s[..|s| - 1] == Decimal(n / 10);
    }
  }

  /** What an identifier looks like: as many characters of its kind as were asked for, each
      chosen by its draw, then the counter. */
  lemma UuidMeans(kind: Kind, draws: seq<nat>, counter: nat)
    ensures var id := UuidFrom(kind, draws, counter);
            && |id| > |draws| && Value(id[|draws|..]) == counter
            && forall i :: 0 <= i < |draws| ==>
                 OfKind(kind, id[i]) && id[i] == Alphabet(kind)[draws[i] % |Alphabet(kind)|]
  {
    hide OfKind, Alphabet, Decimal, Value;
    AlphabetMeans(kind);
    DecimalMeans(counter);
    assert UuidFrom(kind, draws, counter)[|draws|..] == Decimal(counter);
  }

  /** And any character of the kind can be drawn. */
  lemma AnyDrawn(kind: Kind, c: char, counter: nat) returns (d: nat)
    requires OfKind(kind, c)
    ensures d < SizeOf(kind) && UuidFrom(kind, [d], counter)[0] == c
  {
    hide OfKind, Alphabet, Decimal;
    AlphabetMeans(kind);
    d :| 0 <= d < |Alphabet(kind)| && Alphabet(kind)[d] == c;
    assert UuidFrom(kind, [d], counter)[0] == Letters(kind, [d])[0];
  }

  /** An upload id is the MD5, an underscore, and an identifier. */
  lemma UploadIdMeans(md5: string, suffix: string)
    ensures UploadId(md5, suffix) == md5 + ['_'] + suffix
  {
  }
}
