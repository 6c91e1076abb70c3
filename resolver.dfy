/** Output-node resolution of the image flow (`extract_first_image_info`):
    walk the preferred node ids, then every other output node in insertion
    order, and take the first descriptor of the first node that has one. */
module Resolver {
  import opened Backend

  datatype Found = Found(info: ImageInfo, nodeId: string)

  /** The keys of `keys` that are not among the preferred ids, in order. */
  function Remaining(keys: seq<string>, preferred: seq<string>): (r: seq<string>)
    ensures forall k :: k in r <==> k in keys && k !in preferred
    ensures |r| <= |keys|
  {
    if keys == [] then []
    else (if keys[0] in preferred then [] else [keys[0]]) + Remaining(keys[1..], preferred)
  }

  lemma {:induction false} RemainingSnoc(keys: seq<string>, k: string, preferred: seq<string>)
    ensures Remaining(keys + [k], preferred)
         == Remaining(keys, preferred) + (if k in preferred then [] else [k])
  {
    if keys == [] {
      assert Remaining([k], preferred) == (if k in preferred then [] else [k]) + Remaining([], preferred);
    } else {
      assert (keys + [k])[1..] == keys[1..] + [k];
      RemainingSnoc(keys[1..], k, preferred);
    }
  }

  /** RemainingSnoc read on prefixes of one key list. */
  lemma RemainingPrefixStep(keys: seq<string>, j: nat, preferred: seq<string>)
    requires j < |keys|
    ensures keys[j] in preferred ==> Remaining(keys[..j + 1], preferred) == Remaining(keys[..j], preferred)
    ensures keys[j] !in preferred ==> Remaining(keys[..j + 1], preferred) == Remaining(keys[..j], preferred) + [keys[j]]
  {
    assert keys[..j + 1] == keys[..j] + [keys[j]];
    RemainingSnoc(keys[..j], keys[j], preferred);
    assert Remaining(keys[..j], preferred) + [] == Remaining(keys[..j], preferred);
  }

  /** With distinct output keys the fallback part lists each key once. */
  lemma {:induction false} RemainingDistinct(keys: seq<string>, preferred: seq<string>)
    requires forall i, j :: 0 <= i < j < |keys| ==> keys[i] != keys[j]
    ensures forall i, j :: 0 <= i < j < |Remaining(keys, preferred)| ==>
              Remaining(keys, preferred)[i] != Remaining(keys, preferred)[j]
  {
    if keys != [] {
      forall i, j | 0 <= i < j < |keys[1..]| ensures keys[1..][i] != keys[1..][j] {
        assert keys[1..][i] == keys[i + 1] && keys[1..][j] == keys[j + 1];
      }
      RemainingDistinct(keys[1..], preferred);
      assert keys[0] !in keys[1..];
    }
  }

  /** The order in which the resolver visits node ids: the preferred ids as
      given (duplicates kept), then every other key of the outputs. */
  function CandidateOrder(preferred: seq<string>, keys: seq<string>): (r: seq<string>)
    ensures |preferred| <= |r| && r[..|preferred|] == preferred
    ensures forall k :: k in r[|preferred|..] <==> k in keys && k !in preferred
    ensures forall k :: k in r <==> k in preferred || k in keys
  {
    var r := preferred + Remaining(keys, preferred);
    assert r[|preferred|..] == Remaining(keys, preferred);
    r
  }

  /** The descriptor a node offers: its record is a dict whose "images" is a
      non-empty list with a dict first; anything else offers none. */
  function FirstImage(rec: Option<NodeRecord>): (r: Option<ImageInfo>)
    ensures r.Some? <==>
      rec.Some? && rec.value.NodeDict? && rec.value.images.MediaList?
      && |rec.value.images.items| > 0 && rec.value.images.items[0].DictElement?
    ensures r.Some? ==> r.value == rec.value.images.items[0].info
  {
    match rec
    case Some(NodeDict(MediaList(items), _)) =>
      if |items| > 0 && items[0].DictElement? then Some(items[0].info) else None
    case _ => None
  }

  /** The first candidate that offers a descriptor. */
  function FirstQualifying(entries: seq<(string, NodeRecord)>, candidates: seq<string>): Option<Found>
    decreases |candidates|
  {
    if candidates == [] then None
    else match FirstImage(Lookup(entries, candidates[0]))
      case Some(info) => Some(Found(info, candidates[0]))
      case None => FirstQualifying(entries, candidates[1..])
  }

  function Resolve(outputs: OutputsField, preferred: seq<string>): Option<Found> {
    match outputs
    case OutputsNotDict => None
    case OutputsDict(entries) => FirstQualifying(entries, CandidateOrder(preferred, Keys(entries)))
  }

  /** The visiting order of extract_first_image_info: the preferred ids,
      then every output key not among them, in key order. */
  method OrderedNodes(entries: seq<(string, NodeRecord)>, preferred: seq<string>) returns (ordered: seq<string>)
    ensures ordered == CandidateOrder(preferred, Keys(entries))
  {
    ghost var keys := Keys(entries);
    ordered := [];
    if |preferred| > 0 {
      ordered := ordered + preferred;
    }
    assert ordered == preferred;
    var rest: seq<string> := [];
    for j := 0 to |entries|
      invariant rest == Remaining(keys[..j], preferred)
    {
      var k := entries[j].0;
      assert keys[j] == k;
      RemainingPrefixStep(keys, j, preferred);
      if k !in ordered {
        rest := rest + [k];
      }
    }
    assert keys[..|entries|] == keys;
    ordered := ordered + rest;
  }

  /** extract_first_image_info: builds the candidate list, then returns on
      the first node that offers a descriptor.  `preferred` holds the
      str() forms of the caller's ids; an empty list stands for a falsy one. */
  method ExtractFirstImageInfo(outputs: OutputsField, preferred: seq<string>) returns (r: Option<Found>)
    ensures r == Resolve(outputs, preferred)
  {
    if !outputs.OutputsDict? {
      return None;
    }
    var entries := outputs.entries;
    var ordered := OrderedNodes(entries, preferred);
    assert ordered[0..] == ordered;
    for i := 0 to |ordered|
      invariant FirstQualifying(entries, ordered[i..]) == Resolve(outputs, preferred)
    {
      var node := Lookup(entries, ordered[i]);
      FirstQualifyingStep(entries, ordered, i);
      if node.Some? && node.value.NodeDict? {
        var images := node.value.images;
        if images.MediaList? && |images.items| > 0 {
          var first := images.items[0];
          if first.DictElement? {
            return Some(Found(first.info, ordered[i]));
          }
        }
      }
    }
    return None;
  }

  /** One step of the search over a suffix of the visiting order. */
  lemma FirstQualifyingStep(entries: seq<(string, NodeRecord)>, c: seq<string>, i: nat)
    requires i < |c|
    ensures FirstQualifying(entries, c[i..]) ==
      if FirstImage(Lookup(entries, c[i])).Some? then Some(Found(FirstImage(Lookup(entries, c[i])).value, c[i]))
      else FirstQualifying(entries, c[i + 1..])
  {
    assert c[i..][1..] == c[i + 1..];
  }

  // ---- What the resolver's answer means ----

  lemma {:induction false} FirstQualifyingAppend(entries: seq<(string, NodeRecord)>, a: seq<string>, b: seq<string>)
    ensures FirstQualifying(entries, a + b)
         == if FirstQualifying(entries, a).Some? then FirstQualifying(entries, a) else FirstQualifying(entries, b)
    decreases |a|
  {
    if a != [] {
      assert (a + b)[1..] == a[1..] + b;
      FirstQualifyingAppend(entries, a[1..], b);
    } else {
      assert a + b == b;
    }
  }

  /** A found node is a candidate offering exactly the returned descriptor,
      every earlier candidate offers none, and nothing is found only when
      no candidate offers a descriptor. */
  lemma {:induction false} FirstQualifyingIsFirst(entries: seq<(string, NodeRecord)>, candidates: seq<string>)
    ensures FirstQualifying(entries, candidates).None? <==>
      forall j :: 0 <= j < |candidates| ==> FirstImage(Lookup(entries, candidates[j])).None?
    ensures FirstQualifying(entries, candidates).Some? ==>
      exists j :: 0 <= j < |candidates|
        && candidates[j] == FirstQualifying(entries, candidates).value.nodeId
        && FirstImage(Lookup(entries, candidates[j])) == Some(FirstQualifying(entries, candidates).value.info)
        && forall k :: 0 <= k < j ==> FirstImage(Lookup(entries, candidates[k])).None?
    decreases |candidates|
  {
    if candidates != [] {
      FirstQualifyingIsFirst(entries, candidates[1..]);
      var tl := candidates[1..];
      assert forall j :: 1 <= j < |candidates| ==> candidates[j] == tl[j - 1];
      if FirstImage(Lookup(entries, candidates[0])).None? && FirstQualifying(entries, tl).Some? {
        var f := FirstQualifying(entries, tl).value;
        var j :| 0 <= j < |tl| && tl[j] == f.nodeId
          && FirstImage(Lookup(entries, tl[j])) == Some(f.info)
          && forall k :: 0 <= k < j ==> FirstImage(Lookup(entries, tl[k])).None?;
        assert candidates[j + 1] == tl[j];
        assert forall k :: 0 <= k < j + 1 ==> FirstImage(Lookup(entries, candidates[k])).None? by {
          forall k | 0 <= k < j + 1 ensures FirstImage(Lookup(entries, candidates[k])).None? {
            if k > 0 { assert candidates[k] == tl[k - 1]; }
          }
        }
      }
    }
  }

  /** Leaving out ids that offer nothing does not change the first match. */
  lemma {:induction false} SkipNonQualifying(entries: seq<(string, NodeRecord)>, keys: seq<string>, preferred: seq<string>)
    requires forall p :: p in preferred ==> FirstImage(Lookup(entries, p)).None?
    ensures FirstQualifying(entries, Remaining(keys, preferred)) == FirstQualifying(entries, keys)
    decreases |keys|
  {
    if keys != [] {
      SkipNonQualifying(entries, keys[1..], preferred);
      FirstQualifyingAppend(entries, if keys[0] in preferred then [] else [keys[0]], Remaining(keys[1..], preferred));
      assert FirstQualifying(entries, [keys[0]]) == match FirstImage(Lookup(entries, keys[0]))
        case Some(info) => Some(Found(info, keys[0]))
        case None => FirstQualifying(entries, []);
    }
  }

  /** Preference, then fallback: the resolver returns the first preferred
      node that offers a descriptor; when none does, it returns the first
      output node in insertion order that offers one, exactly as if no
      preference had been given.  A non-dict document yields nothing. */
  lemma ResolvePreferredThenFallback(outputs: OutputsField, preferred: seq<string>)
    ensures outputs.OutputsNotDict? ==> Resolve(outputs, preferred) == None
    ensures outputs.OutputsDict? ==>
      Resolve(outputs, preferred)
        == if FirstQualifying(outputs.entries, preferred).Some? then FirstQualifying(outputs.entries, preferred)
           else Resolve(outputs, [])
  {
    if outputs.OutputsDict? {
      var e := outputs.entries;
      FirstQualifyingAppend(e, preferred, Remaining(Keys(e), preferred));
      if FirstQualifying(e, preferred).None? {
        FirstQualifyingIsFirst(e, preferred);
        forall p | p in preferred ensures FirstImage(Lookup(e, p)).None? {
          var j :| 0 <= j < |preferred| && preferred[j] == p;
        }
        SkipNonQualifying(e, Keys(e), preferred);
        SkipNonQualifying(e, Keys(e), []);
        assert CandidateOrder([], Keys(e)) == Remaining(Keys(e), []);
      }
    }
  }

  lemma {:induction false} FirstQualifyingReaches(entries: seq<(string, NodeRecord)>, candidates: seq<string>, j: nat)
    requires j < |candidates| && FirstImage(Lookup(entries, candidates[j])).Some?
    ensures FirstQualifying(entries, candidates).Some?
    decreases j
  {
    if j > 0 && FirstImage(Lookup(entries, candidates[0])).None? {
      assert candidates[1..][j - 1] == candidates[j];
      FirstQualifyingReaches(entries, candidates[1..], j - 1);
    }
  }

  /** When some output node offers a descriptor, resolution finds one,
      whatever the preference list. */
  lemma ResolveFindsAny(entries: seq<(string, NodeRecord)>, preferred: seq<string>, i: nat)
    requires i < |entries| && FirstImage(Lookup(entries, entries[i].0)).Some?
    ensures Resolve(OutputsDict(entries), preferred).Some?
  {
    var c := CandidateOrder(preferred, Keys(entries));
    var k := entries[i].0;
    var ks := Keys(entries);
    assert ks[i] == k;
    assert k in ks;
    assert k in c;
    var j :| 0 <= j < |c| && c[j] == k;
    assert FirstImage(Lookup(entries, c[j])).Some?;
    FirstQualifyingReaches(entries, c, j);
    assert FirstQualifying(entries, c).Some?;
    assert Resolve(OutputsDict(entries), preferred) == FirstQualifying(entries, c);
  }

  /** A repeated candidate is never the first to qualify. */
  lemma {:induction false} DuplicateCandidateIgnored(entries: seq<(string, NodeRecord)>, a: seq<string>, x: string, b: seq<string>)
    requires x in a
    ensures FirstQualifying(entries, a + [x] + b) == FirstQualifying(entries, a + b)
  {
    FirstQualifyingAppend(entries, a, [x] + b);
    FirstQualifyingAppend(entries, a, b);
    assert a + [x] + b == a + ([x] + b);
    if FirstQualifying(entries, a).None? {
      FirstQualifyingIsFirst(entries, a);
      var j :| 0 <= j < |a| && a[j] == x;
      assert FirstImage(Lookup(entries, x)).None?;
      assert ([x] + b)[1..] == b;
    }
  }

  /** The fallback part depends only on which ids are preferred. */
  lemma {:induction false} RemainingSameMembers(keys: seq<string>, p: seq<string>, q: seq<string>)
    requires forall k :: k in p <==> k in q
    ensures Remaining(keys, p) == Remaining(keys, q)
    decreases |keys|
  {
    if keys != [] {
      RemainingSameMembers(keys[1..], p, q);
    }
  }

  /** Resolution is the search over the preferred ids followed by the
      fallback ids. */
  lemma ResolveAsSearch(entries: seq<(string, NodeRecord)>, preferred: seq<string>)
    ensures Resolve(OutputsDict(entries), preferred)
         == FirstQualifying(entries, preferred + Remaining(Keys(entries), preferred))
  {
  }

  lemma ConcatRegroup(a: seq<string>, b: seq<string>, c: seq<string>)
    ensures a + b + c == a + (b + c)
  {
  }

  /** Appending an id already present adds no member. */
  lemma DuplicateSameMembers(a: seq<string>, x: string, b: seq<string>)
    requires x in a
    ensures forall k :: k in a + [x] + b <==> k in a + b
  {
    forall k
      ensures k in a + [x] + b <==> k in a + b
    {
      assert k in a + [x] + b <==> k in a || k == x || k in b;
      assert k in a + b <==> k in a || k in b;
    }
  }

  /** Preferring a node id a second time changes nothing: the duplicate
      stays in the visiting order but never changes which node is found. */
  lemma DuplicatePreferenceIgnored(outputs: OutputsField, a: seq<string>, x: string, b: seq<string>)
    requires x in a
    ensures Resolve(outputs, a + [x] + b) == Resolve(outputs, a + b)
  {
    if outputs.OutputsDict? {
      var e := outputs.entries;
      var rest := Remaining(Keys(e), a + b);
      assert Remaining(Keys(e), a + [x] + b) == rest by {
        DuplicateSameMembers(a, x, b);
        RemainingSameMembers(Keys(e), a + [x] + b, a + b);
      }
      ResolveAsSearch(e, a + [x] + b);
      ResolveAsSearch(e, a + b);
      ConcatRegroup(a + [x], b, rest);
      ConcatRegroup(a, b, rest);
      DuplicateCandidateIgnored(e, a, x, b + rest);
    }
  }
}
