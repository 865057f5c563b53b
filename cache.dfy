/** A cache of parsed templates. Each template specification is reduced to a string key;
    the first request for a key reads and parses the template and stores the templator,
    and every request returns a reset clone of the stored templator. */
module TemplatorCache {
  import opened Wrappers
  import opened Text
  import opened Templator

  const NoSourceMessage := "No templateFileName or templateText specified."

  // ---------------------------------------------------------------------------
  // Cache keys

  /** The start of the key: the template text when there is one, otherwise the file name. */
  function KeyBase(spec: TemplateSpecification): Option<string>
  {
    if spec.templateText.Some? then spec.templateText
    else spec.templateFileName
  }

  /** `'|'` followed by the upper-cased flag, for each flag in iteration order. */
  function FlagSuffix(flags: seq<string>): string
  {
    if flags == [] then ""
    else FlagSuffix(flags[..|flags| - 1]) + "|" + UpperCase(flags[|flags| - 1])
  }

  /** The suffix contributed by an optional flag collection; an absent collection adds nothing. */
  function FlagsPart(flags: Option<seq<string>>): string
  {
    if flags.Some? then FlagSuffix(flags.value) else ""
  }

  /** The cache key of a specification, or the failure raised when it names no template. */
  function CacheKey(spec: TemplateSpecification): Result<string, Failure>
  {
    match KeyBase(spec)
    case None => Failure(IllegalArgument(NoSourceMessage))
    case Some(base) => Success(base + FlagsPart(spec.conditionFlags))
  }

  /** Builds the key by appending to a growing buffer, one flag at a time. */
  method GenerateCacheKey(spec: TemplateSpecification) returns (r: Result<string, Failure>)
    ensures r == CacheKey(spec)
  {
    var key: string;
    if spec.templateText.Some? {
      key := spec.templateText.value;
    } else if spec.templateFileName.Some? {
      key := spec.templateFileName.value;
    } else {
      return Failure(IllegalArgument(NoSourceMessage));
    }
    if spec.conditionFlags.Some? {
      var flags := spec.conditionFlags.value;
      ghost var base := key;
      for i := 0 to |flags|
        invariant key == base + FlagSuffix(flags[..i])
      {
        assert flags[..i + 1][..i] == flags[..i];
        key := key + "|";
        key := key + UpperCase(flags[i]);
      }
      assert flags[..|flags|] == flags;
    } else {
      assert key + FlagsPart(spec.conditionFlags) == key;
    }
    return Success(key);
  }

  /** The suffix read from the front: the first flag's part comes first. */
  lemma {:induction false} FlagSuffixCons(f: string, rest: seq<string>)
    ensures FlagSuffix([f] + rest) == "|" + UpperCase(f) + FlagSuffix(rest)
    decreases |rest|
  {
    if rest != [] {
      var init := rest[..|rest| - 1];
      assert ([f] + rest)[..|rest|] == [f] + init;
      FlagSuffixCons(f, init);
    }
  }

  /** Flag lists that agree flag by flag up to letter case give the same suffix. */
  lemma {:induction false} FlagSuffixIgnoresCase(f1: seq<string>, f2: seq<string>)
    requires |f1| == |f2|
    requires forall i :: 0 <= i < |f1| ==> SameIgnoringCase(f1[i], f2[i])
    ensures FlagSuffix(f1) == FlagSuffix(f2)
  {
    if f1 != [] {
      var n := |f1| - 1;
      FlagSuffixIgnoresCase(f1[..n], f2[..n]);
      UpperCaseEqualIff(f1[n], f2[n]);
    }
  }

  /** The suffix is empty or starts with a bar. */
  lemma FlagSuffixStartsWithBar(flags: seq<string>)
    ensures FlagSuffix(flags) == [] || FlagSuffix(flags)[0] == '|'
  {
    if flags != [] {
      assert flags == [flags[0]] + flags[1..];
      FlagSuffixCons(flags[0], flags[1..]);
    }
  }

  /** A bar-free prefix reaches no further than the bar that starts the other remainder. */
  lemma BarFreePrefixNoLonger(b1: string, t1: string, b2: string, t2: string)
    requires '|' !in b1
    requires t2 == [] || t2[0] == '|'
    requires b1 + t1 == b2 + t2
    ensures |b1| <= |b2|
  {
    if t2 != [] {
      assert (b2 + t2)[|b2|] == '|';
      assert forall i :: 0 <= i < |b1| ==> b1[i] != '|';
    }
  }

  /** A bar-free prefix is recovered from a string whose remainder is empty or starts with a bar. */
  lemma SplitAtBar(b1: string, t1: string, b2: string, t2: string)
    requires '|' !in b1 && '|' !in b2
    requires t1 == [] || t1[0] == '|'
    requires t2 == [] || t2[0] == '|'
    requires b1 + t1 == b2 + t2
    ensures b1 == b2 && t1 == t2
  {
    BarFreePrefixNoLonger(b1, t1, b2, t2);
    BarFreePrefixNoLonger(b2, t2, b1, t1);
    var s := b1 + t1;
    assert b1 == s[..|b1|] == b2;
    assert t1 == s[|b1|..] == t2;
  }

  /** A non-empty suffix is never the suffix of no flags. */
  lemma FlagSuffixNonEmpty(flags: seq<string>)
    requires flags != []
    ensures FlagSuffix(flags) != []
  {
  }

  /** Equal suffixes of two non-empty bar-free flag lists agree on the first flag up to case
      and on the suffix of the rest. */
  lemma FlagSuffixHead(a: string, r1: seq<string>, b: string, r2: seq<string>)
    requires '|' !in a && '|' !in b
    requires FlagSuffix([a] + r1) == FlagSuffix([b] + r2)
    ensures SameIgnoringCase(a, b) && FlagSuffix(r1) == FlagSuffix(r2)
  {
    var x1 := UpperCase(a) + FlagSuffix(r1);
    var x2 := UpperCase(b) + FlagSuffix(r2);
    assert FlagSuffix([a] + r1) == "|" + x1 by {
      FlagSuffixCons(a, r1);
    }
    assert FlagSuffix([b] + r2) == "|" + x2 by {
      FlagSuffixCons(b, r2);
    }
    assert x1 == ("|" + x1)[1..] == ("|" + x2)[1..] == x2;
    UpperCaseKeeps(a, '|');
    UpperCaseKeeps(b, '|');
    FlagSuffixStartsWithBar(r1);
    FlagSuffixStartsWithBar(r2);
    SplitAtBar(UpperCase(a), FlagSuffix(r1), UpperCase(b), FlagSuffix(r2));
    UpperCaseEqualIff(a, b);
  }

  /** Flags without bars are recovered from their suffix, up to letter case. */
  lemma {:induction false} FlagSuffixInjective(f1: seq<string>, f2: seq<string>)
    requires forall i :: 0 <= i < |f1| ==> '|' !in f1[i]
    requires forall i :: 0 <= i < |f2| ==> '|' !in f2[i]
    requires FlagSuffix(f1) == FlagSuffix(f2)
    ensures |f1| == |f2| && forall i :: 0 <= i < |f1| ==> SameIgnoringCase(f1[i], f2[i])
    decreases |f1|
  {
    if f1 == [] {
      if f2 != [] {
        FlagSuffixNonEmpty(f2);
        assert false;
      }
    } else if f2 == [] {
      FlagSuffixNonEmpty(f1);
      assert false;
    } else {
      var r1, r2 := f1[1..], f2[1..];
      assert f1 == [f1[0]] + r1 && f2 == [f2[0]] + r2;
      FlagSuffixHead(f1[0], r1, f2[0], r2);
      FlagSuffixInjective(r1, r2);
      forall i | 0 <= i < |f1| ensures SameIgnoringCase(f1[i], f2[i]) {
        if i > 0 {
          assert f1[i] == r1[i - 1] && f2[i] == r2[i - 1];
        }
      }
    }
  }

  /** Key generation fails exactly when the specification names neither text nor file,
      and then with an IllegalArgumentException. */
  lemma CacheKeyFailsIffNoSource(spec: TemplateSpecification)
    ensures CacheKey(spec).Failure? <==> spec.templateText.None? && spec.templateFileName.None?
    ensures CacheKey(spec).Failure? ==> CacheKey(spec).error == IllegalArgument(NoSourceMessage)
  {
  }

  /** With template text present the key starts with that text and the file name plays no part. */
  lemma CacheKeyFromText(spec: TemplateSpecification, otherFileName: Option<string>)
    requires spec.templateText.Some?
    ensures CacheKey(spec).Success?
    ensures CacheKey(spec).value[..|spec.templateText.value|] == spec.templateText.value
    ensures CacheKey(spec) == CacheKey(spec.(templateFileName := otherFileName))
  {
  }

  /** Without template text the key starts with the file name. */
  lemma CacheKeyFromFileName(spec: TemplateSpecification)
    requires spec.templateText.None? && spec.templateFileName.Some?
    ensures CacheKey(spec).Success?
    ensures CacheKey(spec).value[..|spec.templateFileName.value|] == spec.templateFileName.value
  {
  }

  /** Without flags, absent or empty, the key is just the text or file name. */
  lemma CacheKeyWithoutFlags(spec: TemplateSpecification)
    requires spec.conditionFlags.None? || spec.conditionFlags == Some([])
    requires KeyBase(spec).Some?
    ensures CacheKey(spec) == Success(KeyBase(spec).value)
  {
    assert KeyBase(spec).value + "" == KeyBase(spec).value;
  }

  /** Each flag adds one `'|'` and its upper-cased name to the key, in iteration order. */
  lemma CacheKeyAddFlag(spec: TemplateSpecification, flags: seq<string>, f: string)
    requires KeyBase(spec).Some?
    ensures CacheKey(spec.(conditionFlags := Some(flags + [f])))
         == Success(CacheKey(spec.(conditionFlags := Some(flags))).value + "|" + UpperCase(f))
  {
    var base := KeyBase(spec).value;
    assert (flags + [f])[..|flags|] == flags;
    assert FlagSuffix(flags + [f]) == FlagSuffix(flags) + "|" + UpperCase(f);
    assert base + (FlagSuffix(flags) + "|" + UpperCase(f)) == base + FlagSuffix(flags) + "|" + UpperCase(f);
  }

  /** Specifications whose flags differ only in letter case share a key. */
  lemma CacheKeyIgnoresFlagCase(spec: TemplateSpecification, f1: seq<string>, f2: seq<string>)
    requires |f1| == |f2|
    requires forall i :: 0 <= i < |f1| ==> SameIgnoringCase(f1[i], f2[i])
    ensures CacheKey(spec.(conditionFlags := Some(f1))) == CacheKey(spec.(conditionFlags := Some(f2)))
  {
    FlagSuffixIgnoresCase(f1, f2);
  }

  /** Conversely, when neither the text or file name nor any flag contains a bar, equal keys
      mean the same text or file name and the same flags up to letter case. */
  lemma CacheKeyDeterminesSource(s1: TemplateSpecification, s2: TemplateSpecification,
                                 f1: seq<string>, f2: seq<string>)
    requires KeyBase(s1).Some? && '|' !in KeyBase(s1).value
    requires KeyBase(s2).Some? && '|' !in KeyBase(s2).value
    requires forall i :: 0 <= i < |f1| ==> '|' !in f1[i]
    requires forall i :: 0 <= i < |f2| ==> '|' !in f2[i]
    requires CacheKey(s1.(conditionFlags := Some(f1))) == CacheKey(s2.(conditionFlags := Some(f2)))
    ensures KeyBase(s1) == KeyBase(s2)
    ensures |f1| == |f2| && forall i :: 0 <= i < |f1| ==> SameIgnoringCase(f1[i], f2[i])
  {
    FlagSuffixStartsWithBar(f1);
    FlagSuffixStartsWithBar(f2);
    SplitAtBar(KeyBase(s1).value, FlagSuffix(f1), KeyBase(s2).value, FlagSuffix(f2));
    FlagSuffixInjective(f1, f2);
  }

  /** The flags are not sorted: the same two flags in the other order give another key. */
  lemma CacheKeyFlagOrderMatters()
    ensures CacheKey(TemplateSpecification(Some("t"), None, Some(["a", "b"])))
         != CacheKey(TemplateSpecification(Some("t"), None, Some(["b", "a"])))
  {
    var ab := CacheKey(TemplateSpecification(Some("t"), None, Some(["a", "b"])));
    FlagSuffixCons("a", ["b"]);
    FlagSuffixCons("b", ["a"]);
    assert ab.value[2] == 'A';
  }

  /** The key does not separate the template from its flags: text containing a bar
      can collide with shorter text plus a flag. */
  lemma CacheKeyBarCollision()
    ensures CacheKey(TemplateSpecification(Some("a|B"), None, None))
         == CacheKey(TemplateSpecification(Some("a"), None, Some(["b"])))
  {
    FlagSuffixCons("b", []);
    assert UpperCase("b") == "B";
    assert FlagSuffix(["b"]) == "|B";
    assert CacheKey(TemplateSpecification(Some("a"), None, Some(["b"]))) == Success("a" + "|B");
    assert CacheKey(TemplateSpecification(Some("a|B"), None, None)) == Success("a|B" + "");
    assert "a" + "|B" == "a|B" + "";
  }

  /** Nor does it separate inline text from file names: text equal to a file name
      shares that file's key. */
  lemma CacheKeyTextFileNameCollision(name: string, flags: Option<seq<string>>)
    ensures CacheKey(TemplateSpecification(Some(name), None, flags))
         == CacheKey(TemplateSpecification(None, Some(name), flags))
  {
  }

  // ---------------------------------------------------------------------------
  // Lookup-or-insert, stated on the abstract cache contents

  /** The outcome of one request and the cache contents after it. */
  datatype Lookup = Lookup(outcome: Result<Structure, Failure>, entries: map<string, Structure>)

  /** One request against cache contents `entries`; `construction` is what reading and
      parsing the template would yield, and is used only on a miss. */
  function GetStep(entries: map<string, Structure>, spec: TemplateSpecification,
                   construction: Result<Structure, Failure>): Lookup
  {
    match CacheKey(spec)
    case Failure(e) => Lookup(Failure(e), entries)
    case Success(key) =>
      if key in entries then Lookup(Success(entries[key]), entries)
      else match construction
        case Failure(e) => Lookup(Failure(e), entries)
        case Success(s) => Lookup(Success(s), entries[key := s])
  }

  /** A specification without a source fails before the cache is consulted. */
  lemma GetWithoutSourceFails(entries: map<string, Structure>, spec: TemplateSpecification,
                              construction: Result<Structure, Failure>)
    requires spec.templateText.None? && spec.templateFileName.None?
    ensures GetStep(entries, spec, construction) == Lookup(Failure(IllegalArgument(NoSourceMessage)), entries)
  {
  }

  /** On a miss with a successful construction the new templator is stored under the key
      and every other entry stays as it was. */
  lemma GetMissInserts(entries: map<string, Structure>, spec: TemplateSpecification, s: Structure)
    requires CacheKey(spec).Success? && CacheKey(spec).value !in entries
    ensures var after := GetStep(entries, spec, Success(s));
      && after.outcome == Success(s)
      && after.entries.Keys == entries.Keys + {CacheKey(spec).value}
      && after.entries[CacheKey(spec).value] == s
      && forall k :: k in entries ==> after.entries[k] == entries[k]
  {
  }

  /** On a hit nothing is constructed: the outcome is the stored structure, whatever the
      construction would have yielded, and the cache is unchanged. */
  lemma GetHitUnchanged(entries: map<string, Structure>, spec: TemplateSpecification,
                        construction: Result<Structure, Failure>)
    requires CacheKey(spec).Success? && CacheKey(spec).value in entries
    ensures GetStep(entries, spec, construction) == Lookup(Success(entries[CacheKey(spec).value]), entries)
  {
  }

  /** A failed read or parse never populates the cache. */
  lemma GetFailedConstructionStoresNothing(entries: map<string, Structure>, spec: TemplateSpecification,
                                           e: Failure)
    requires CacheKey(spec).Success? && CacheKey(spec).value !in entries
    ensures GetStep(entries, spec, Failure(e)) == Lookup(Failure(e), entries)
    ensures CacheKey(spec).value !in GetStep(entries, spec, Failure(e)).entries
  {
  }

  /** Entries are only ever added, never replaced or removed. */
  lemma GetOnlyAdds(entries: map<string, Structure>, spec: TemplateSpecification,
                    construction: Result<Structure, Failure>)
    ensures var after := GetStep(entries, spec, construction).entries;
      entries.Keys <= after.Keys && forall k :: k in entries ==> after[k] == entries[k]
  {
  }

  /** A successful request leaves its structure stored under the specification's key. */
  lemma GetResultIsCached(entries: map<string, Structure>, spec: TemplateSpecification,
                          construction: Result<Structure, Failure>)
    requires GetStep(entries, spec, construction).outcome.Success?
    ensures CacheKey(spec).Success?
    ensures var after := GetStep(entries, spec, construction);
      CacheKey(spec).value in after.entries
      && after.entries[CacheKey(spec).value] == after.outcome.value
  {
  }

  /** Requesting the same specification twice leaves the cache as one request does; after a
      successful first request the second is a hit whatever its construction would yield. */
  lemma GetTwiceSameAsOnce(entries: map<string, Structure>, spec: TemplateSpecification,
                           construction: Result<Structure, Failure>,
                           second: Result<Structure, Failure>)
    ensures var once := GetStep(entries, spec, construction);
      GetStep(once.entries, spec, construction) == once
    ensures var once := GetStep(entries, spec, construction);
      once.outcome.Success? ==> GetStep(once.entries, spec, second) == once
  {
  }

  /** After the cache is cleared every request is a miss: its outcome is the construction's. */
  lemma GetAfterClearMisses(spec: TemplateSpecification, construction: Result<Structure, Failure>)
    requires CacheKey(spec).Success?
    ensures GetStep(map[], spec, construction).outcome == construction
    ensures GetStep(map[], spec, construction).entries
         == if construction.Success? then map[CacheKey(spec).value := construction.value] else map[]
  {
  }

  // ---------------------------------------------------------------------------
  // The cache object

  class MiniTemplatorCache {
    var cache: map<string, MiniTemplator>

    /** The stored templators are never handed out, so they keep their pristine bindings. */
    ghost predicate Valid()
      reads this, cache.Values
    {
      forall k | k in cache :: cache[k].bindings == Pristine
    }

    /** The parsed structure stored under each key. */
    ghost function Entries(): map<string, Structure>
      reads this
    {
      map k | k in cache :: cache[k].structure
    }

    /** A new cache is empty. */
    constructor ()
      ensures Valid() && cache == map[] && Entries() == map[]
    {
      cache := map[];
    }

    /** Looks the specification up, building and storing a templator on a miss, and returns
        a reset clone of the stored templator. */
    method Get(spec: TemplateSpecification, construction: Result<Structure, Failure>)
      returns (r: Result<MiniTemplator, Failure>)
      requires Valid()
      modifies this
      ensures Valid()
      ensures Entries() == GetStep(old(Entries()), spec, construction).entries
      ensures r.Success? <==> GetStep(old(Entries()), spec, construction).outcome.Success?
      ensures r.Failure? ==> r.error == GetStep(old(Entries()), spec, construction).outcome.error
      ensures r.Success? ==> fresh(r.value) && r.value.bindings == Pristine
                             && r.value.structure == GetStep(old(Entries()), spec, construction).outcome.value
      ensures r.Success? ==> forall k :: k in cache ==> cache[k] != r.value
      ensures forall k :: k in old(cache) ==> k in cache && cache[k] == old(cache)[k]
      ensures forall k :: k in cache && k !in old(cache) ==> fresh(cache[k])
    {
      var key := GenerateCacheKey(spec);
      if key.Failure? {
        return Failure(key.error);
      }
      var mt: MiniTemplator;
      if key.value in cache {
        mt := cache[key.value];
      } else {
        var built := MiniTemplator.Create(construction);
        if built.Failure? {
          return Failure(built.error);
        }
        mt := built.value;
        cache := cache[key.value := mt];
        assert Entries() == old(Entries())[key.value := mt.structure];
      }
      var c := mt.CloneReset();
      return Success(c);
    }

    /** Empties the cache. */
    method Clear()
      modifies this
      ensures Valid() && cache == map[] && Entries() == map[]
    {
      cache := map[];
    }
  }
}
