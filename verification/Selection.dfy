/** Selection properties: which protocols and interfaces are compatible with what the application
    asked for, and in which order compatible candidates are tried (section 6.2 of RFC 9622). */
module Selection {

  datatype Preference = Prohibit | Avoid | NoPreference | Prefer | Require

  /** An entry of the application's selection properties; only simple preferences select. */
  datatype Property = Simple(want: Preference) | Other

  /** SELECTION_PROPERTY_END: both lists have one entry for each selection property. */
  const PROPERTY_COUNT: nat := 18

  type Wishes = s: seq<Property> | |s| == PROPERTY_COUNT witness seq(PROPERTY_COUNT, _ => Other)
  type Offers = s: seq<Preference> | |s| == PROPERTY_COUNT witness seq(PROPERTY_COUNT, _ => NoPreference)

  /** `offers[i]` is what the protocol says about property i. */
  datatype Protocol = Protocol(name: string, supportsAlpn: bool, offers: Offers)

  datatype Option<+T> = None | Some(value: T)

  // ---------------------------------------------------------------- compatible protocols

  predicate Supports(p: Protocol, desired: Wishes) {
    forall i | 0 <= i < PROPERTY_COUNT ::
      && (desired[i] == Simple(Require) ==> p.offers[i] != Prohibit)
      && (desired[i] == Simple(Prohibit) ==> p.offers[i] != Require)
  }

  method ProtocolSupports(p: Protocol, desired: Wishes) returns (b: bool)
    ensures b <==> Supports(p, desired)
  {
    for i := 0 to PROPERTY_COUNT
      invariant forall k | 0 <= k < i ::
        && (desired[k] == Simple(Require) ==> p.offers[k] != Prohibit)
        && (desired[k] == Simple(Prohibit) ==> p.offers[k] != Require)
    {
      if desired[i].Simple? {
        if desired[i].want == Require && p.offers[i] == Prohibit { return false; }
        if desired[i].want == Prohibit && p.offers[i] == Require { return false; }
      }
    }
    return true;
  }

  // ---------------------------------------------------------------- preference sets

  datatype Combination = Combination(value: string, preference: Preference)

  predicate DistinctValues(s: seq<Combination>) {
    forall i, j | 0 <= i < j < |s| :: s[i].value != s[j].value
  }

  /** The preference of the first entry for `value`. */
  function Lookup(s: seq<Combination>, value: string): (p: Option<Preference>) {
    if s == [] then None
    else if s[0].value == value then Some(s[0].preference)
    else Lookup(s[1..], value)
  }

  lemma {:induction false} LookupFinds(s: seq<Combination>, value: string, i: nat)
    requires i < |s| && s[i].value == value && forall k | 0 <= k < i :: s[k].value != value
    ensures Lookup(s, value) == Some(s[i].preference)
  {
    if i > 0 { LookupFinds(s[1..], value, i - 1); }
  }

  lemma {:induction false} LookupMisses(s: seq<Combination>, value: string)
    requires forall k | 0 <= k < |s| :: s[k].value != value
    ensures Lookup(s, value) == None
  {
    if s != [] { LookupMisses(s[1..], value); }
  }

  lemma {:induction false} LookupUpdate(s: seq<Combination>, i: nat, c: Combination, value: string)
    requires i < |s| && c.value == s[i].value != value
    ensures Lookup(s[i := c], value) == Lookup(s, value)
  {
    if i == 0 {
      assert s[i := c][1..] == s[1..];
    } else {
      assert s[i := c][1..] == s[1..][i - 1 := c];
      LookupUpdate(s[1..], i - 1, c, value);
    }
  }

  lemma {:induction false} LookupAppend(s: seq<Combination>, c: Combination, value: string)
    ensures Lookup(s + [c], value) ==
            if Lookup(s, value).Some? then Lookup(s, value)
            else if c.value == value then Some(c.preference) else None
  {
    if s != [] {
      assert (s + [c])[1..] == s[1..] + [c];
      LookupAppend(s[1..], c, value);
    }
  }

  class PreferenceSet {
    var combinations: seq<Combination>

    constructor ()
      ensures combinations == []
    {
      combinations := [];
    }

    /** Sets the preference of one value.  Every other value keeps its own, and no value is ever
        listed twice. */
    method Add(value: string, preference: Preference)
      requires DistinctValues(combinations)
      modifies this
      ensures DistinctValues(combinations)
      ensures Lookup(combinations, value) == Some(preference)
      ensures forall v | v != value :: Lookup(combinations, v) == old(Lookup(combinations, v))
      ensures |old(combinations)| <= |combinations|
      ensures forall i | 0 <= i < |old(combinations)| :: combinations[i].value == old(combinations)[i].value
    {
      var c := Combination(value, preference);
      for i := 0 to |combinations|
        invariant combinations == old(combinations)
        invariant forall k | 0 <= k < i :: combinations[k].value != value
      {
        if combinations[i].value == value {
          combinations := combinations[i := c];
          LookupFinds(combinations, value, i);
          forall v | v != value ensures Lookup(combinations, v) == old(Lookup(combinations, v)) {
            LookupUpdate(old(combinations), i, c, v);
          }
          return;
        }
      }
      LookupMisses(combinations, value);
      combinations := combinations + [c];
      forall v
        ensures Lookup(combinations, v) == if v == value then Some(preference) else old(Lookup(combinations, v))
      {
        LookupAppend(old(combinations), c, v);
      }
    }

    method Get(value: string) returns (p: Preference)
      ensures p == match Lookup(combinations, value) case Some(q) => q case None => NoPreference
    {
      for i := 0 to |combinations|
        invariant forall k | 0 <= k < i :: combinations[k].value != value
      {
        if combinations[i].value == value {
          LookupFinds(combinations, value, i);
          return combinations[i].preference;
        }
      }
      LookupMisses(combinations, value);
      return NoPreference;
    }
  }

  // ---------------------------------------------------------------- compatible interfaces

  function InterfaceType(name: string): (t: Option<string>) {
    if "wl" <= name then Some("Wi-Fi")
    else if "en" <= name then Some("Ethernet")
    else if name == "lo" then Some("Loopback")
    else None
  }

  /** The application's view: its own type is not prohibited and no other type is required. */
  predicate InterfaceCompatible(name: string, set_: seq<Combination>) {
    || set_ == []
    || name == "any"
    || (&& InterfaceType(name).Some?
        && forall i | 0 <= i < |set_| ::
             set_[i].preference != if set_[i].value == InterfaceType(name).value then Prohibit else Require)
  }

  method InterfaceIsCompatible(name: string, set_: seq<Combination>) returns (b: bool)
    ensures b <==> InterfaceCompatible(name, set_)
  {
    if |set_| == 0 { return true; }
    if name == "any" { return true; }
    var t := InterfaceType(name);
    if t.None? { return false; }
    for i := 0 to |set_|
      invariant forall k | 0 <= k < i ::
        set_[k].preference != if set_[k].value == t.value then Prohibit else Require
    {
      if set_[i].value == t.value {
        if set_[i].preference == Prohibit { return false; }
      } else if set_[i].preference == Require {
        return false;
      }
    }
    return true;
  }

  /** On sets built by `Add`, compatibility is about the looked-up preferences alone. */
  lemma CompatibleByLookup(name: string, set_: seq<Combination>)
    requires DistinctValues(set_) && set_ != [] && name != "any" && InterfaceType(name).Some?
    ensures var t := InterfaceType(name).value;
      InterfaceCompatible(name, set_) <==>
        && Lookup(set_, t) != Some(Prohibit)
        && forall v | v != t :: Lookup(set_, v) != Some(Require)
  {
    var t := InterfaceType(name).value;
    if InterfaceCompatible(name, set_) {
      forall v | v != t && Lookup(set_, v).Some? ensures Lookup(set_, v) != Some(Require) {
        var i := LookupWitness(set_, v);
      }
      if Lookup(set_, t).Some? { var i := LookupWitness(set_, t); }
    } else {
      var i :| 0 <= i < |set_| && set_[i].preference == if set_[i].value == t then Prohibit else Require;
      LookupFinds(set_, set_[i].value, i);
    }
  }

  lemma {:induction false} LookupWitness(s: seq<Combination>, value: string) returns (i: nat)
    requires Lookup(s, value).Some?
    ensures i < |s| && s[i].value == value && Lookup(s, value) == Some(s[i].preference)
  {
    if s[0].value == value { return 0; }
    i := LookupWitness(s[1..], value);
    i := i + 1;
  }

  // ---------------------------------------------------------------- ranking

  /** How many of the first n PREFERs (AVOIDs) the protocol can meet. */
  function PrefersMet(p: Protocol, desired: Wishes, n: nat): (c: nat) {
    if n == 0 then 0
    else PrefersMet(p, desired, n - 1)
         + if n <= PROPERTY_COUNT && desired[n - 1] == Simple(Prefer) && p.offers[n - 1] != Prohibit
           then 1 else 0
  }

  function AvoidsMet(p: Protocol, desired: Wishes, n: nat): (c: nat) {
    if n == 0 then 0
    else AvoidsMet(p, desired, n - 1)
         + if n <= PROPERTY_COUNT && desired[n - 1] == Simple(Avoid) && p.offers[n - 1] != Require
           then 1 else 0
  }

  datatype Rank = Rank(prefers: nat, avoids: nat)

  function RankOf(p: Protocol, desired: Wishes): (r: Rank) {
    Rank(PrefersMet(p, desired, PROPERTY_COUNT), AvoidsMet(p, desired, PROPERTY_COUNT))
  }

  /** Lexicographic: more PREFERs first, AVOIDs only break ties. */
  predicate Before(a: Rank, b: Rank) {
    a.prefers > b.prefers || (a.prefers == b.prefers && a.avoids > b.avoids)
  }

  /** The comparator handed to the sort: one pass that keeps two running differences. */
  method ComparePreferences(a: Protocol, b: Protocol, desired: Wishes) returns (order: int)
    ensures order < 0 <==> Before(RankOf(a, desired), RankOf(b, desired))
    ensures order > 0 <==> Before(RankOf(b, desired), RankOf(a, desired))
    ensures order == 0 <==> RankOf(a, desired) == RankOf(b, desired)
  {
    var prefer, avoid := 0, 0;
    for i := 0 to PROPERTY_COUNT
      invariant prefer == PrefersMet(a, desired, i) - PrefersMet(b, desired, i)
      invariant avoid == AvoidsMet(a, desired, i) - AvoidsMet(b, desired, i)
    {
      if desired[i].Simple? {
        if desired[i].want == Prefer {
          if a.offers[i] != Prohibit { prefer := prefer + 1; }
          if b.offers[i] != Prohibit { prefer := prefer - 1; }
        } else if desired[i].want == Avoid {
          if a.offers[i] != Require { avoid := avoid + 1; }
          if b.offers[i] != Require { avoid := avoid - 1; }
        }
      }
    }
    return if prefer != 0 then -prefer else -avoid;
  }
}
