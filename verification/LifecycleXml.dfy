/**
  The lifecycle configuration document: the mapping of the domain configuration to
  its XML document types and back, with the And rules of filters and the sorted tag
  order.  Reading and printing a date text is a parameter with its law.
 */
module LifecycleXml {
  import opened Wrappers

  /** Nanoseconds from the zero time. */
  type Instant = int

  const ZERO_TIME: Instant := 0
  const SECOND := 1_000_000_000

  // ---------------------------------------------------------------- domain

  datatype Filter = Filter(prefix: string, tags: map<string, string>, greaterThan: Option<int>, lessThan: Option<int>)

  datatype Expiration = Expiration(days: int, date: Instant, deleteMarker: bool)

  datatype Transition = Transition(days: int, date: Instant, storageClass: string)

  datatype Rule = Rule(id: string, status: string, filter: Filter, expiration: Option<Expiration>,
                       transitions: seq<Transition>, abortDays: Option<int>)

  type Config = seq<Rule>

  // ---------------------------------------------------------------- document

  datatype TagXml = TagXml(key: string, value: string)

  datatype AndXml = AndXml(prefix: string, tags: seq<TagXml>, greaterThan: Option<int>, lessThan: Option<int>)

  datatype FilterXml = FilterXml(prefix: Option<string>, tag: Option<TagXml>, greaterThan: Option<int>,
                                 lessThan: Option<int>, both: Option<AndXml>)

  datatype ExpirationXml = ExpirationXml(days: int, date: string, deleteMarker: bool)

  datatype TransitionXml = TransitionXml(days: int, date: string, storageClass: string)

  datatype RuleXml = RuleXml(id: string, prefix: Option<string>, status: string, filter: Option<FilterXml>,
                             expiration: Option<ExpirationXml>, transitions: seq<TransitionXml>, abortDays: Option<int>)

  // ---------------------------------------------------------------- dates

  /** The time package's RFC 3339 printing and its lenient parsing. */
  datatype DateText = DateText(show: Instant -> string, parse: string -> Option<Instant>)

  function WholeSeconds(t: Instant): Instant { t - t % SECOND }

  const DAY := 86_400 * SECOND

  /** In a year that four digits can write: from the start of year 0 to the end of year 9999. */
  predicate FourDigitYear(t: Instant) { -366 * DAY <= t < 3_652_059 * DAY }

  /** Printing drops the fraction; the text is never empty, and parses exactly for a four-digit year. */
  ghost predicate Lawful(d: DateText) {
    forall t: Instant ::
      d.show(t) != "" && d.parse(d.show(t)) == if FourDigitYear(t) then Some(WholeSeconds(t)) else None
  }

  function ParseDate(d: DateText, s: string): Option<Instant> { if s == "" then Some(ZERO_TIME) else d.parse(s) }

  function PrintDate(d: DateText, t: Instant): string { if t == ZERO_TIME then "" else d.show(t) }

  /**
    A printed date parses exactly in a four-digit year, and survives exactly when it is a whole
    second as well; only the zero time has no text.
   */
  lemma DateRoundTrip(d: DateText, t: Instant)
    requires Lawful(d)
    ensures PrintDate(d, t) == "" <==> t == ZERO_TIME
    ensures ParseDate(d, PrintDate(d, t)) == if FourDigitYear(t) then Some(WholeSeconds(t)) else None
    ensures ParseDate(d, PrintDate(d, t)) == Some(t) <==> FourDigitYear(t) && t % SECOND == 0
  {}

  // ---------------------------------------------------------------- the order of tags

  /** Go's string order. */
  predicate Before(a: string, b: string) {
    b != "" && (a == "" || a[0] < b[0] || (a[0] == b[0] && Before(a[1..], b[1..])))
  }

  lemma {:induction false} Trichotomy(a: string, b: string)
    ensures a == b || Before(a, b) || Before(b, a)
    ensures !(Before(a, b) && Before(b, a)) && !Before(a, a)
  {
    if a != "" && b != "" && a[0] == b[0] {
      Trichotomy(a[1..], b[1..]);
      assert a == [a[0]] + a[1..] && b == [b[0]] + b[1..];
    }
    if a != "" { Irreflexive(a); }
  }

  lemma {:induction false} Irreflexive(a: string)
    ensures !Before(a, a)
  {
    if a != "" { Irreflexive(a[1..]); }
  }

  lemma {:induction false} Transitive(a: string, b: string, c: string)
    requires Before(a, b) && Before(b, c)
    ensures Before(a, c)
  {
    if a != "" && a[0] == b[0] && b[0] == c[0] { Transitive(a[1..], b[1..], c[1..]); }
  }

  predicate Ascending(keys: seq<string>) { forall i, j :: 0 <= i < j < |keys| ==> Before(keys[i], keys[j]) }

  function Elements(keys: seq<string>): set<string> { set k | k in keys }

  function Insert(keys: seq<string>, k: string): seq<string> {
    if keys == [] then [k]
    else if Before(k, keys[0]) then [k] + keys
    else [keys[0]] + Insert(keys[1..], k)
  }

  lemma ElementsIff(keys: seq<string>, k: string)
    ensures k in keys <==> k in Elements(keys)
  {}

  lemma {:induction false} InsertElements(keys: seq<string>, k: string)
    ensures Elements(Insert(keys, k)) == Elements(keys) + {k}
  {
    if keys != [] && !Before(k, keys[0]) {
      InsertElements(keys[1..], k);
      assert Elements([keys[0]] + Insert(keys[1..], k)) == {keys[0]} + Elements(Insert(keys[1..], k));
      assert keys == [keys[0]] + keys[1..];
      assert Elements([keys[0]] + keys[1..]) == {keys[0]} + Elements(keys[1..]);
    }
  }

  lemma AscendingCons(k: string, rest: seq<string>)
    requires Ascending(rest) && forall j :: 0 <= j < |rest| ==> Before(k, rest[j])
    ensures Ascending([k] + rest)
  {}

  lemma {:induction false} InsertSorts(keys: seq<string>, k: string)
    requires Ascending(keys) && k !in keys
    ensures Ascending(Insert(keys, k))
  {
    if keys != [] {
      Trichotomy(k, keys[0]);
      if Before(k, keys[0]) {
        forall j | 0 <= j < |keys|
          ensures Before(k, keys[j])
        {
          if j > 0 { Transitive(k, keys[0], keys[j]); }
        }
        AscendingCons(k, keys);
      } else {
        InsertSorts(keys[1..], k);
        InsertElements(keys[1..], k);
        BeforeInserted(keys, k);
        AscendingCons(keys[0], Insert(keys[1..], k));
      }
    }
  }

  lemma BeforeInserted(keys: seq<string>, k: string)
    requires keys != [] && Ascending(keys) && Before(keys[0], k)
    ensures forall j :: 0 <= j < |Insert(keys[1..], k)| ==> Before(keys[0], Insert(keys[1..], k)[j])
  {
    var rest := Insert(keys[1..], k);
    InsertElements(keys[1..], k);
    forall j | 0 <= j < |rest|
      ensures Before(keys[0], rest[j])
    {
      assert rest[j] in Elements(rest);
      ElementsIff(keys[1..], rest[j]);
      if rest[j] != k {
        var i :| 0 <= i < |keys[1..]| && keys[1..][i] == rest[j];
        assert Before(keys[0], keys[i + 1]);
      }
    }
  }

  /** The order depends only on the set of keys. */
  lemma {:induction false} AscendingIsUnique(a: seq<string>, b: seq<string>)
    requires Ascending(a) && Ascending(b) && Elements(a) == Elements(b)
    ensures a == b
  {
    if a == [] {
      assert forall i :: 0 <= i < |b| ==> b[i] in Elements(b);
      assert b == [];
    } else {
      assert a[0] in Elements(a);
      assert b != [];
      SameFirst(a, b);
      RestOfSet(a);
      RestOfSet(b);
      AscendingIsUnique(a[1..], b[1..]);
      assert a == [a[0]] + a[1..] && b == [b[0]] + b[1..];
    }
  }

  lemma SameFirst(a: seq<string>, b: seq<string>)
    requires Ascending(a) && Ascending(b) && Elements(a) == Elements(b) && a != [] && b != []
    ensures a[0] == b[0]
  {
    assert a[0] in Elements(a) && b[0] in Elements(b);
    assert a[0] in b && b[0] in a;
    Trichotomy(a[0], b[0]);
  }

  lemma RestOfSet(a: seq<string>)
    requires Ascending(a) && a != []
    ensures Elements(a[1..]) == Elements(a) - {a[0]}
  {
    Irreflexive(a[0]);
    assert a == [a[0]] + a[1..];
    forall k | k in a[1..]
      ensures k != a[0]
    {
      var i :| 0 <= i < |a[1..]| && a[1..][i] == k;
      assert Before(a[0], a[i + 1]);
    }
  }

  lemma {:induction false} SortedExists(s: set<string>)
    ensures exists keys :: Ascending(keys) && Elements(keys) == s
  {
    if s == {} {
      assert Ascending([]) && Elements([]) == {};
    } else {
      var k :| k in s;
      SortedExists(s - {k});
      var keys :| Ascending(keys) && Elements(keys) == s - {k};
      ElementsIff(keys, k);
      InsertSorts(keys, k);
      InsertElements(keys, k);
      assert (s - {k}) + {k} == s;
    }
  }

  ghost function KeysInOrder(m: map<string, string>): (keys: seq<string>)
    ensures Ascending(keys) && Elements(keys) == m.Keys
  {
    SortedExists(m.Keys);
    var keys :| Ascending(keys) && Elements(keys) == m.Keys;
    keys
  }

  // ---------------------------------------------------------------- filters

  function Count(present: bool): nat { if present then 1 else 0 }

  function Predicates(f: Filter): nat {
    Count(f.prefix != "") + |f.tags| + Count(f.greaterThan.Some?) + Count(f.lessThan.Some?)
  }

  function TagList(keys: seq<string>, m: map<string, string>): seq<TagXml>
    requires forall k :: k in keys ==> k in m
  {
    seq(|keys|, i requires 0 <= i < |keys| => TagXml(keys[i], m[keys[i]]))
  }

  /** lifecycleFilterToXML, given the tags' keys in the order they are met. */
  function FilterToXml(f: Filter, keys: seq<string>): FilterXml
    requires forall k :: k in keys ==> k in f.tags
  {
    if Predicates(f) <= 1 then
      FilterXml(if f.prefix != "" then Some(f.prefix) else None,
                if keys == [] then None else Some(TagXml(keys[|keys| - 1], f.tags[keys[|keys| - 1]])),
                f.greaterThan, f.lessThan, None)
    else
      FilterXml(None, None, None, None, Some(AndXml(f.prefix, TagList(keys, f.tags), f.greaterThan, f.lessThan)))
  }

  /** The tags of an And, a later one with the same key winning. */
  function TagMap(tags: seq<TagXml>): map<string, string> {
    if tags == [] then map[] else TagMap(tags[..|tags| - 1])[tags[|tags| - 1].key := tags[|tags| - 1].value]
  }

  function Siblings(x: FilterXml): nat {
    Count(x.prefix.Some?) + Count(x.tag.Some?) + Count(x.greaterThan.Some?) + Count(x.lessThan.Some?)
  }

  function FilterFromXml(x: FilterXml): Option<Filter> {
    if x.both.Some? then
      if Siblings(x) > 0 then None
      else Some(Filter(x.both.value.prefix, TagMap(x.both.value.tags), x.both.value.greaterThan, x.both.value.lessThan))
    else if Siblings(x) > 1 then None
    else
      Some(Filter(if x.prefix.Some? then x.prefix.value else "",
                  if x.tag.Some? then map[x.tag.value.key := x.tag.value.value] else map[],
                  x.greaterThan, x.lessThan))
  }

  ghost predicate Enumerates(keys: seq<string>, m: map<string, string>) {
    Elements(keys) == m.Keys && forall i, j :: 0 <= i < j < |keys| ==> keys[i] != keys[j]
  }

  lemma {:induction false} TagsSurvive(keys: seq<string>, m: map<string, string>)
    requires forall k :: k in keys ==> k in m
    ensures TagMap(TagList(keys, m)) == map k | k in Elements(keys) :: m[k]
  {
    var tags := TagList(keys, m);
    if keys != [] {
      var n := |keys| - 1;
      TagsSurvive(keys[..n], m);
      assert tags[..n] == TagList(keys[..n], m);
      assert keys == keys[..n] + [keys[n]];
      assert Elements(keys) == Elements(keys[..n]) + {keys[n]};
    }
  }

  lemma {:induction false} Cardinality(keys: seq<string>)
    requires forall i, j :: 0 <= i < j < |keys| ==> keys[i] != keys[j]
    ensures |Elements(keys)| == |keys|
  {
    if keys != [] {
      var n := |keys| - 1;
      Cardinality(keys[..n]);
      assert keys == keys[..n] + [keys[n]];
      assert keys[n] !in keys[..n];
      assert Elements(keys) == Elements(keys[..n]) + {keys[n]};
    }
  }

  lemma TagCount(keys: seq<string>, m: map<string, string>)
    requires Enumerates(keys, m)
    ensures |m| == |keys|
  {
    Cardinality(keys);
    assert |m| == |m.Keys|;
  }

  lemma SmallFilterRoundTrip(f: Filter, keys: seq<string>)
    requires Enumerates(keys, f.tags) && Predicates(f) <= 1
    ensures (forall k :: k in keys ==> k in f.tags) && FilterFromXml(FilterToXml(f, keys)) == Some(f)
  {
    KeysPresent(keys, f.tags);
    TagCount(keys, f.tags);
    if keys == [] {
      assert f.tags == map[];
    } else {
      assert keys == [keys[0]] && Elements(keys) == {keys[0]};
      assert f.tags == map[keys[0] := f.tags[keys[0]]];
    }
  }

  lemma KeysPresent(keys: seq<string>, m: map<string, string>)
    requires Elements(keys) == m.Keys
    ensures forall k :: k in keys ==> k in m
  {
    forall k | k in keys
      ensures k in m
    {
      assert k in Elements(keys);
    }
  }

  /** Any filter survives, in whatever order its tags are met; the And and sibling rules never reject it. */
  lemma FilterRoundTrip(f: Filter, keys: seq<string>)
    requires Enumerates(keys, f.tags)
    ensures (forall k :: k in keys ==> k in f.tags) && FilterFromXml(FilterToXml(f, keys)) == Some(f)
  {
    KeysPresent(keys, f.tags);
    if Predicates(f) <= 1 {
      SmallFilterRoundTrip(f, keys);
    } else {
      TagsSurvive(keys, f.tags);
      assert (map k | k in Elements(keys) :: f.tags[k]) == f.tags;
    }
  }

  /** One predicate is printed on its own, and left out when it is absent; two or more only inside an And. */
  lemma PrintedShape(f: Filter, keys: seq<string>)
    requires Enumerates(keys, f.tags) && forall k :: k in keys ==> k in f.tags
    ensures var x := FilterToXml(f, keys);
            var n := (if f.prefix != "" then 1 else 0) + |f.tags| + (if f.greaterThan.Some? then 1 else 0)
                     + (if f.lessThan.Some? then 1 else 0);
            if n > 1
            then
              && x.both.Some? && x.prefix.None? && x.tag.None? && x.greaterThan.None? && x.lessThan.None?
              && |x.both.value.tags| == |keys|
              && forall i :: 0 <= i < |keys| ==> x.both.value.tags[i] == TagXml(keys[i], f.tags[keys[i]])
            else
              && x.both.None? && x.prefix == (if f.prefix != "" then Some(f.prefix) else None)
              && (x.tag.Some? <==> f.tags != map[]) && x.greaterThan == f.greaterThan && x.lessThan == f.lessThan
  {
    TagCount(keys, f.tags);
    if keys == [] { assert f.tags == map[]; } else { assert keys[0] in f.tags; }
  }

  /** A filter is refused exactly when it has anything beside an And, or two of its four predicates without one. */
  lemma FilterRejectedIff(x: FilterXml)
    ensures FilterFromXml(x).None? <==>
            if x.both.Some? then x.prefix.Some? || x.tag.Some? || x.greaterThan.Some? || x.lessThan.Some?
            else
              || (x.prefix.Some? && (x.tag.Some? || x.greaterThan.Some? || x.lessThan.Some?))
              || (x.tag.Some? && (x.greaterThan.Some? || x.lessThan.Some?))
              || (x.greaterThan.Some? && x.lessThan.Some?)
  {}

  lemma AscendingEnumerates(keys: seq<string>, m: map<string, string>)
    requires Ascending(keys) && Elements(keys) == m.Keys
    ensures Enumerates(keys, m)
  {
    forall i, j | 0 <= i < j < |keys|
      ensures keys[i] != keys[j]
    {
      Irreflexive(keys[i]);
    }
  }

  // ---------------------------------------------------------------- rules and configurations

  function ExpirationToXml(d: DateText, e: Expiration): ExpirationXml {
    ExpirationXml(e.days, PrintDate(d, e.date), e.deleteMarker)
  }

  function ExpirationFromXml(d: DateText, x: ExpirationXml): Option<Expiration> {
    match ParseDate(d, x.date)
    case None => None
    case Some(date) => Some(Expiration(x.days, date, x.deleteMarker))
  }

  function TransitionToXml(d: DateText, t: Transition): TransitionXml {
    TransitionXml(t.days, PrintDate(d, t.date), t.storageClass)
  }

  function TransitionFromXml(d: DateText, x: TransitionXml): Option<Transition> {
    match ParseDate(d, x.date)
    case None => None
    case Some(date) => Some(Transition(x.days, date, x.storageClass))
  }

  /** A mapping applied to each element in turn, failing with the first that fails. */
  function All<A, B>(xs: seq<A>, f: A -> Option<B>): Option<seq<B>> {
    if xs == [] then Some([])
    else
      var before := All(xs[..|xs| - 1], f);
      var last := f(xs[|xs| - 1]);
      if before.None? || last.None? then None else Some(before.value + [last.value])
  }

  function Each<A, B>(xs: seq<A>, f: A -> B): seq<B> { seq(|xs|, i requires 0 <= i < |xs| => f(xs[i])) }

  ghost function RuleToXml(d: DateText, r: Rule): RuleXml {
    KeysPresent(KeysInOrder(r.filter.tags), r.filter.tags);
    RuleXml(r.id, None, r.status, Some(FilterToXml(r.filter, KeysInOrder(r.filter.tags))),
            if r.expiration.Some? then Some(ExpirationToXml(d, r.expiration.value)) else None,
            Each(r.transitions, (t: Transition) => TransitionToXml(d, t)), r.abortDays)
  }

  function RuleFromXml(d: DateText, x: RuleXml): Option<Rule> {
    if x.filter.Some? && x.prefix.Some? then None
    else
      var filter :=
        if x.filter.Some? then FilterFromXml(x.filter.value)
        else Some(Filter(if x.prefix.Some? then x.prefix.value else "", map[], None, None));
      var expiration :=
        if x.expiration.None? then Some(None)
        else
          match ExpirationFromXml(d, x.expiration.value)
          case None => None
          case Some(e) => Some(Some(e));
      var transitions := All(x.transitions, (t: TransitionXml) => TransitionFromXml(d, t));
      if filter.None? || expiration.None? || transitions.None? then None
      else Some(Rule(x.id, x.status, filter.value, expiration.value, transitions.value, x.abortDays))
  }

  ghost function ToXml(d: DateText, cfg: Config): seq<RuleXml> {
    seq(|cfg|, i requires 0 <= i < |cfg| => RuleToXml(d, cfg[i]))
  }

  function FromXml(d: DateText, doc: seq<RuleXml>): Option<Config> {
    All(doc, (x: RuleXml) => RuleFromXml(d, x))
  }

  /**
    A rule is refused exactly when it has both a filter and a prefix of its own, a filter
    that is refused, or a date that does not parse; a prefix of its own is its filter.
   */
  lemma RuleRejectedIff(d: DateText, x: RuleXml)
    ensures RuleFromXml(d, x).None? <==>
            || (x.filter.Some? && x.prefix.Some?)
            || (x.filter.Some? && FilterFromXml(x.filter.value).None?)
            || (x.expiration.Some? && ParseDate(d, x.expiration.value.date).None?)
            || exists i :: 0 <= i < |x.transitions| && ParseDate(d, x.transitions[i].date).None?
    ensures x.filter.None? && RuleFromXml(d, x).Some? ==>
              RuleFromXml(d, x).value.filter
              == Filter(if x.prefix.Some? then x.prefix.value else "", map[], None, None)
  {
    AllSucceedIff(x.transitions, (t: TransitionXml) => TransitionFromXml(d, t));
  }

  /** Dates lose their fraction of a second. */
  function RoundedRule(r: Rule): Rule {
    r.(expiration := if r.expiration.None? then None
                     else Some(r.expiration.value.(date := WholeSeconds(r.expiration.value.date))),
       transitions := Each(r.transitions, (t: Transition) => t.(date := WholeSeconds(t.date))))
  }

  /** Every date of the rule is in a four-digit year. */
  predicate PrintableRule(r: Rule) {
    && (r.expiration.Some? ==> FourDigitYear(r.expiration.value.date))
    && (forall i :: 0 <= i < |r.transitions| ==> FourDigitYear(r.transitions[i].date))
  }

  predicate WholeRule(r: Rule) {
    && (r.expiration.Some? ==> r.expiration.value.date % SECOND == 0)
    && (forall i :: 0 <= i < |r.transitions| ==> r.transitions[i].date % SECOND == 0)
  }

  lemma {:induction false} AllOf<A, B>(xs: seq<A>, f: A -> Option<B>, ys: seq<B>)
    requires |xs| == |ys| && forall i :: 0 <= i < |xs| ==> f(xs[i]) == Some(ys[i])
    ensures All(xs, f) == Some(ys)
  {
    if xs != [] {
      AllOf(xs[..|xs| - 1], f, ys[..|ys| - 1]);
      assert ys == ys[..|ys| - 1] + [ys[|ys| - 1]];
    }
  }

  lemma {:induction false} AllSucceedIff<A, B>(xs: seq<A>, f: A -> Option<B>)
    ensures All(xs, f).Some? <==> forall i :: 0 <= i < |xs| ==> f(xs[i]).Some?
  {
    if xs != [] {
      var n := |xs| - 1;
      AllSucceedIff(xs[..n], f);
      assert forall i :: 0 <= i < n ==> xs[..n][i] == xs[i];
    }
  }

  lemma TransitionsRoundTrip(d: DateText, ts: seq<Transition>)
    requires Lawful(d)
    ensures All(Each(ts, (t: Transition) => TransitionToXml(d, t)), (x: TransitionXml) => TransitionFromXml(d, x))
         == if forall i :: 0 <= i < |ts| ==> FourDigitYear(ts[i].date)
            then Some(Each(ts, (t: Transition) => t.(date := WholeSeconds(t.date)))) else None
  {
    var xs, f := Each(ts, (t: Transition) => TransitionToXml(d, t)), (x: TransitionXml) => TransitionFromXml(d, x);
    forall i | 0 <= i < |ts|
      ensures f(xs[i]) == if FourDigitYear(ts[i].date) then Some(ts[i].(date := WholeSeconds(ts[i].date))) else None
    {
      DateRoundTrip(d, ts[i].date);
    }
    AllSucceedIff(xs, f);
    if forall i :: 0 <= i < |ts| ==> FourDigitYear(ts[i].date) {
      AllOf(xs, f, Each(ts, (t: Transition) => t.(date := WholeSeconds(t.date))));
    }
  }

  lemma RuleRoundTrip(d: DateText, r: Rule)
    requires Lawful(d)
    ensures RuleFromXml(d, RuleToXml(d, r)) == if PrintableRule(r) then Some(RoundedRule(r)) else None
  {
    AscendingEnumerates(KeysInOrder(r.filter.tags), r.filter.tags);
    FilterRoundTrip(r.filter, KeysInOrder(r.filter.tags));
    TransitionsRoundTrip(d, r.transitions);
    if r.expiration.Some? { DateRoundTrip(d, r.expiration.value.date); }
  }

  lemma RoundedIffWhole(r: Rule)
    ensures RoundedRule(r) == r <==> WholeRule(r)
  {
    var rounded := RoundedRule(r);
    if WholeRule(r) {
      assert rounded.transitions == r.transitions;
    }
    if rounded == r {
      forall i | 0 <= i < |r.transitions|
        ensures r.transitions[i].date % SECOND == 0
      {
        assert rounded.transitions[i] == r.transitions[i];
      }
    }
  }

  /**
    Parsing the printed form of a configuration succeeds exactly when every date in it
    is in a four-digit year, and gives back the configuration itself exactly when every
    date is a whole second as well.
   */
  lemma ConfigRoundTrip(d: DateText, cfg: Config)
    requires Lawful(d)
    ensures FromXml(d, ToXml(d, cfg)).Some? <==> forall i :: 0 <= i < |cfg| ==> PrintableRule(cfg[i])
    ensures FromXml(d, ToXml(d, cfg)) == Some(cfg) <==>
      forall i :: 0 <= i < |cfg| ==> PrintableRule(cfg[i]) && WholeRule(cfg[i])
  {
    var doc, f, rounded := ToXml(d, cfg), (x: RuleXml) => RuleFromXml(d, x), Each(cfg, RoundedRule);
    forall i | 0 <= i < |cfg|
      ensures f(doc[i]) == if PrintableRule(cfg[i]) then Some(rounded[i]) else None
      ensures rounded[i] == cfg[i] <==> WholeRule(cfg[i])
    {
      RuleRoundTrip(d, cfg[i]);
      RoundedIffWhole(cfg[i]);
    }
    AllSucceedIff(doc, f);
    if forall i :: 0 <= i < |cfg| ==> PrintableRule(cfg[i]) {
      AllOf(doc, f, rounded);
      assert rounded == cfg <==> forall i :: 0 <= i < |cfg| ==> rounded[i] == cfg[i];
    }
  }

  /**
    The date 9999-12-31T23:59:59-01:00 is accepted and is an instant of year 10000 UTC:
    a configuration that holds it prints to a document that no longer parses.
   */
  lemma YearTenThousandIsLost(d: DateText, filter: Filter)
    requires Lawful(d)
    ensures var late := 3_652_059 * DAY + 3_599 * SECOND;
            var cfg := [Rule("", "Enabled", filter, Some(Expiration(0, late, false)), [], None)];
            FromXml(d, ToXml(d, cfg)) == None
  {
    var late := 3_652_059 * DAY + 3_599 * SECOND;
    var cfg := [Rule("", "Enabled", filter, Some(Expiration(0, late, false)), [], None)];
    ConfigRoundTrip(d, cfg);
    assert !FourDigitYear(late) && !PrintableRule(cfg[0]);
  }

  // ---------------------------------------------------------------- the loops

  /** sortedKeys: collect the keys in whatever order the map yields them, then sort. */
  method SortedKeys(m: map<string, string>) returns (keys: seq<string>)
    ensures keys == KeysInOrder(m)
  {
    var rest := m.Keys;
    keys := [];
    while rest != {}
      invariant rest <= m.Keys && Ascending(keys) && Elements(keys) == m.Keys - rest
      decreases |rest|
    {
      var k :| k in rest;
      ElementsIff(keys, k);
      InsertSorts(keys, k);
      InsertElements(keys, k);
      keys := Insert(keys, k);
      rest := rest - {k};
    }
    AscendingIsUnique(keys, KeysInOrder(m));
  }

  /** lifecycleFilterToXML, with its predicate counter and its tag loop. */
  method PrintFilter(f: Filter) returns (x: FilterXml)
    ensures (forall k :: k in KeysInOrder(f.tags) ==> k in f.tags)
    ensures x == FilterToXml(f, KeysInOrder(f.tags))
  {
    var keys := SortedKeys(f.tags);
    KeysPresent(keys, f.tags);
    var predicates := 0;
    if f.prefix != "" { predicates := predicates + 1; }
    predicates := predicates + |f.tags|;
    if f.greaterThan.Some? { predicates := predicates + 1; }
    if f.lessThan.Some? { predicates := predicates + 1; }
    if predicates <= 1 {
      var tag: Option<TagXml> := None;
      for i := 0 to |keys|
        invariant tag == if i == 0 then None else Some(TagXml(keys[i - 1], f.tags[keys[i - 1]]))
      {
        tag := Some(TagXml(keys[i], f.tags[keys[i]]));
      }
      return FilterXml(if f.prefix != "" then Some(f.prefix) else None, tag, f.greaterThan, f.lessThan, None);
    }
    var tags: seq<TagXml> := [];
    for i := 0 to |keys|
      invariant tags == TagList(keys, f.tags)[..i]
    {
      tags := tags + [TagXml(keys[i], f.tags[keys[i]])];
    }
    assert TagList(keys, f.tags)[..|keys|] == TagList(keys, f.tags);
    x := FilterXml(None, None, None, None, Some(AndXml(f.prefix, tags, f.greaterThan, f.lessThan)));
  }

  /** lifecycleFilterFromXML, with its sibling counter and its tag loop. */
  method ParseFilter(x: FilterXml) returns (r: Option<Filter>)
    ensures r == FilterFromXml(x)
  {
    if x.both.Some? {
      var and := x.both.value;
      if x.prefix.Some? || x.tag.Some? || x.greaterThan.Some? || x.lessThan.Some? { return None; }
      var tags: map<string, string> := map[];
      for i := 0 to |and.tags|
        invariant tags == TagMap(and.tags[..i])
      {
        assert and.tags[..i + 1][..i] == and.tags[..i];
        tags := tags[and.tags[i].key := and.tags[i].value];
      }
      assert and.tags[..|and.tags|] == and.tags;
      return Some(Filter(and.prefix, tags, and.greaterThan, and.lessThan));
    }
    var siblings := 0;
    if x.prefix.Some? { siblings := siblings + 1; }
    if x.tag.Some? { siblings := siblings + 1; }
    if x.greaterThan.Some? { siblings := siblings + 1; }
    if x.lessThan.Some? { siblings := siblings + 1; }
    if siblings > 1 { return None; }
    r := Some(Filter(if x.prefix.Some? then x.prefix.value else "",
                     if x.tag.Some? then map[x.tag.value.key := x.tag.value.value] else map[],
                     x.greaterThan, x.lessThan));
  }

  /** lifecycleConfigToXML. */
  method PrintConfig(d: DateText, cfg: Config) returns (doc: seq<RuleXml>)
    ensures doc == ToXml(d, cfg)
  {
    doc := [];
    for i := 0 to |cfg|
      invariant doc == ToXml(d, cfg)[..i]
    {
      var r := cfg[i];
      var filter := PrintFilter(r.filter);
      var expiration := if r.expiration.Some? then Some(ExpirationToXml(d, r.expiration.value)) else None;
      var transitions := Each(r.transitions, (t: Transition) => TransitionToXml(d, t));
      doc := doc + [RuleXml(r.id, None, r.status, Some(filter), expiration, transitions, r.abortDays)];
    }
  }

  /** lifecycleConfigFromXML. */
  method ParseConfig(d: DateText, doc: seq<RuleXml>) returns (r: Option<Config>)
    ensures r == FromXml(d, doc)
  {
    var f := (x: RuleXml) => RuleFromXml(d, x);
    var rules: Config := [];
    for i := 0 to |doc|
      invariant All(doc[..i], f) == Some(rules)
    {
      assert doc[..i + 1][..i] == doc[..i];
      var rule := RuleFromXml(d, doc[i]);
      if rule.None? {
        AllFails(doc, f, i + 1);
        return None;
      }
      rules := rules + [rule.value];
    }
    assert doc[..|doc|] == doc;
    r := Some(rules);
  }

  lemma {:induction false} AllFails<A, B>(xs: seq<A>, f: A -> Option<B>, i: nat)
    requires i <= |xs| && All(xs[..i], f) == None
    ensures All(xs, f) == None
  {
    if i == |xs| {
      assert xs[..i] == xs;
    } else {
      assert xs[..|xs| - 1][..i] == xs[..i];
      AllFails(xs[..|xs| - 1], f, i);
    }
  }
}
