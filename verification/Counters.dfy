/** The counters of a configuration: which buckets exist, how large they are, and who fills them. */
module Counters {
  import opened Wrappers
  import opened Tiers
  import opened Refs
  import opened Agreement

  const IP := "ip"
  const NET := "asn_net"
  const ROUTER := "asn_router"
  const SESS := "sess"
  const USER := "user"
  const CONN := "conn"
  const KNOWN_AXES := [IP, NET, ROUTER, SESS, USER, CONN]

  const FILL_MEASURE := "measure"
  const FILL_NOTE := "note"

  /** `sessCookie` and `userFrom` are the counter's own subjects; an empty one falls back to the shared one. */
  datatype Counter = Counter(axes: map<string, Tier>, fill: string, sessCookie: string, userFrom: string)

  datatype Config = Config(counters: map<string, Counter>, sessCookie: string, userFrom: string) {
    function UserFrom(counter: string): string {
      if counter in counters && counters[counter].userFrom != "" then counters[counter].userFrom else userFrom
    }

    function SessCookie(counter: string): string {
      if counter in counters && counters[counter].sessCookie != "" then counters[counter].sessCookie else sessCookie
    }

    predicate HasAxis(counter: string, axis: string) {
      counter in counters && axis in counters[counter].axes
    }

    function Fill(counter: string): string {
      if counter !in counters || counters[counter].fill == "" then FILL_MEASURE else counters[counter].fill
    }
  }

  function Kind(counter: string, axis: string): string {
    counter + ":" + axis
  }

  // ---------- what a valid configuration is ----------

  predicate Alphanumeric(c: char) {
    'A' <= c <= 'Z' || 'a' <= c <= 'z' || '0' <= c <= '9'
  }

  predicate GoodName(name: string) {
    name != "" && Alphanumeric(name[0]) && forall c :: c in name ==> Alphanumeric(c) || c == '.' || c == '_' || c == '-'
  }

  /** What stands before and after the first `sep`, if there is one. */
  function Cut(s: string, sep: char): (r: Option<(string, string)>)
    ensures r.None? <==> sep !in s
    ensures r.Some? ==> sep !in r.value.0 && s == r.value.0 + [sep] + r.value.1
  {
    if s == "" then None
    else if s[0] == sep then Some(("", s[1..]))
    else
      match Cut(s[1..], sep)
      case None => None
      case Some(p) => Some(([s[0]] + p.0, p.1))
  }

  function SplitFrom(from: string): Option<(string, string)> {
    match Cut(from, ':')
    case None => None
    case Some((kind, name)) =>
      if name == "" then None
      else if kind == "cookie" || kind == "header" then Some((kind, name))
      else if kind == "session" && (name == "user" || name == "sid") then Some((kind, name))
      else None
  }

  predicate GoodFrom(from: string) {
    from == "" || SplitFrom(from).Some?
  }

  predicate GoodAxis(c: Config, counter: string, axis: string)
    requires c.HasAxis(counter, axis)
  {
    var tier := c.counters[counter].axes[axis];
    axis in KNOWN_AXES && tier.max > 0.0 && 0.0 < tier.loss <= 100.0 && (axis == USER ==> c.UserFrom(counter) != "")
  }

  predicate GoodCounter(c: Config, counter: string)
    requires counter in c.counters
  {
    var cnt := c.counters[counter];
    && GoodName(counter)
    && cnt.fill in ["", FILL_MEASURE, FILL_NOTE]
    && cnt.axes != map[]
    && (forall axis :: axis in cnt.axes ==> GoodAxis(c, counter, axis))
    && GoodFrom(cnt.userFrom)
  }

  predicate Valid(c: Config) {
    && c.counters != map[]
    && (forall counter :: counter in c.counters ==> GoodCounter(c, counter))
    && GoodFrom(c.userFrom)
  }

  /** Accepts exactly the valid configurations. */
  method Validate(c: Config) returns (ok: bool)
    ensures ok <==> Valid(c)
    ensures ok <==>
      c.counters != map[] && GoodFrom(c.userFrom) && forall counter :: counter in c.counters ==> GoodCounter(c, counter)
  {
    if c.counters == map[] {
      return false;
    }
    var rest := c.counters.Keys;
    while rest != {}
      invariant rest <= c.counters.Keys
      invariant forall counter :: counter in c.counters.Keys - rest ==> GoodCounter(c, counter)
    {
      var counter :| counter in rest;
      rest := rest - {counter};
      var good := ValidateCounter(c, counter);
      if !good {
        assert !GoodCounter(c, counter);
        return false;
      }
    }
    ok := GoodFrom(c.userFrom);
  }

  method ValidateCounter(c: Config, counter: string) returns (ok: bool)
    requires counter in c.counters
    ensures ok <==> GoodCounter(c, counter)
  {
    var cnt := c.counters[counter];
    if !GoodName(counter) || cnt.fill !in ["", FILL_MEASURE, FILL_NOTE] || cnt.axes == map[] {
      return false;
    }
    var rest := cnt.axes.Keys;
    while rest != {}
      invariant rest <= cnt.axes.Keys
      invariant forall axis :: axis in cnt.axes.Keys - rest ==> GoodAxis(c, counter, axis)
    {
      var axis :| axis in rest;
      rest := rest - {axis};
      if !GoodAxis(c, counter, axis) {
        return false;
      }
    }
    ok := GoodFrom(cnt.userFrom);
  }

  /** A good counter has a plain name, a known way of being filled and at least one axis; every axis is a known one with a
      positive capacity and a loss of up to all of it a second; and users have a source where one is needed. */
  lemma GoodCounterExactly(c: Config, counter: string)
    requires counter in c.counters
    ensures var cnt := c.counters[counter];
      GoodCounter(c, counter)
      <==> && GoodName(counter) && GoodFrom(cnt.userFrom) && cnt.axes != map[]
           && (cnt.fill == "" || cnt.fill == "measure" || cnt.fill == "note")
           && forall axis :: axis in cnt.axes ==>
                && axis in ["ip", "asn_net", "asn_router", "sess", "user", "conn"]
                && cnt.axes[axis].max > 0.0 && 0.0 < cnt.axes[axis].loss <= 100.0
                && (axis == "user" ==> cnt.userFrom != "" || c.userFrom != "")
  {
    var cnt := c.counters[counter];
    forall axis | axis in cnt.axes
      ensures GoodAxis(c, counter, axis)
        <==> && axis in ["ip", "asn_net", "asn_router", "sess", "user", "conn"]
             && cnt.axes[axis].max > 0.0 && 0.0 < cnt.axes[axis].loss <= 100.0
             && (axis == "user" ==> cnt.userFrom != "" || c.userFrom != "")
    {}
  }

  /** In a valid configuration notes fill the counters that say so, and measuring fills all others. */
  lemma FilledBy(c: Config, counter: string)
    requires Valid(c)
    ensures c.Fill(counter) == if counter in c.counters && c.counters[counter].fill == "note" then "note" else "measure"
  {
    assert counter in c.counters ==> GoodCounter(c, counter);
  }

  /** A name is made of letters, digits, dots, underscores and dashes and starts with a letter or a digit. */
  lemma GoodNameExactly(name: string)
    ensures GoodName(name) <==>
            && |name| > 0 && name[0] != '.' && name[0] != '_' && name[0] != '-'
            && forall i :: 0 <= i < |name| ==>
                 || 'A' <= name[i] <= 'Z' || 'a' <= name[i] <= 'z' || '0' <= name[i] <= '9'
                 || name[i] == '.' || name[i] == '_' || name[i] == '-'
  {
    assert forall i :: 0 <= i < |name| ==> name[i] in name;
  }

  /** Users come from a named cookie, a named header, or one of two fields of the session. */
  lemma GoodFromExactly(from: string)
    ensures GoodFrom(from) <==>
            || from == "" || from == "session" + ":" + "user" || from == "session" + ":" + "sid"
            || exists name :: name != "" && (from == "cookie" + ":" + name || from == "header" + ":" + name)
  {
    assert ':' !in "cookie" && ':' !in "header" && ':' !in "session";
    if ':' in from {
      var p := Cut(from, ':').value;
      assert from == p.0 + ":" + p.1;
      forall word, name | word in {"cookie", "header", "session"}
        ensures from == word + ":" + name <==> p.0 == word && p.1 == name
      {
        SameParts(p.0, p.1, word, name);
      }
      var known := exists name :: name != "" && (from == "cookie" + ":" + name || from == "header" + ":" + name);
      if p.1 != "" && (p.0 == "cookie" || p.0 == "header") {
        assert known;
      }
    } else {
      forall word, name ensures from != word + ":" + name {
        assert (word + ":" + name)[|word|] == ':';
      }
    }
  }

  lemma SameParts(kind: string, name: string, word: string, rest: string)
    requires ':' !in kind && ':' !in word
    ensures kind + ":" + name == word + ":" + rest <==> kind == word && name == rest
  {
    CutJoined(kind, ':', name);
    CutJoined(word, ':', rest);
  }

  // ---------- the tiers of a configuration ----------

  predicate Declares(c: Config, kind: string, counter: string, axis: string) {
    c.HasAxis(counter, axis) && kind == Kind(counter, axis)
  }

  /** One tier per declared pair of counter and axis, and no others. */
  ghost predicate IsTiers(c: Config, tiers: map<string, Tier>) {
    && (forall counter, axis :: c.HasAxis(counter, axis) ==> Kind(counter, axis) in tiers)
    && (forall kind :: kind in tiers ==> exists counter, axis ::
          Declares(c, kind, counter, axis) && tiers[kind] == c.counters[counter].axes[axis])
  }

  method TiersOf(c: Config) returns (tiers: map<string, Tier>)
    ensures IsTiers(c, tiers)
  {
    tiers := map[];
    var rest := c.counters.Keys;
    while rest != {}
      invariant rest <= c.counters.Keys
      invariant forall counter, axis :: c.HasAxis(counter, axis) && counter !in rest ==> Kind(counter, axis) in tiers
      invariant forall kind :: kind in tiers ==> exists counter, axis ::
        Declares(c, kind, counter, axis) && tiers[kind] == c.counters[counter].axes[axis]
    {
      var counter :| counter in rest;
      rest := rest - {counter};
      var axes := c.counters[counter].axes.Keys;
      while axes != {}
        invariant axes <= c.counters[counter].axes.Keys
        invariant forall other, axis :: c.HasAxis(other, axis) && other !in rest && (other == counter ==> axis !in axes) ==>
          Kind(other, axis) in tiers
        invariant forall kind :: kind in tiers ==> exists other, axis ::
          Declares(c, kind, other, axis) && tiers[kind] == c.counters[other].axes[axis]
      {
        var axis :| axis in axes;
        axes := axes - {axis};
        ghost var before := tiers;
        tiers := tiers[Kind(counter, axis) := c.counters[counter].axes[axis]];
        forall kind | kind in tiers
          ensures exists other, a :: Declares(c, kind, other, a) && tiers[kind] == c.counters[other].axes[a]
        {
          if kind == Kind(counter, axis) {
            assert Declares(c, kind, counter, axis);
          } else {
            assert kind in before;
          }
        }
      }
    }
  }

  // ---------- valid names keep the keys of different buckets apart ----------

  /** Cutting a joined pair gives the pair back. */
  lemma {:induction false} CutJoined(a: string, sep: char, b: string)
    requires sep !in a
    ensures Cut(a + [sep] + b, sep) == Some((a, b))
  {
    var s := a + [sep] + b;
    if a == "" {
      assert s == [sep] + b;
    } else {
      CutJoined(a[1..], sep, b);
      assert s[1..] == a[1..] + [sep] + b;
      assert a == [a[0]] + a[1..];
    }
  }

  lemma KnownAxisHasNoColon(axis: string)
    requires axis in KNOWN_AXES
    ensures ':' !in axis
  {}

  lemma GoodNameHasNoColon(name: string)
    requires GoodName(name)
    ensures ':' !in name
  {}

  /** A kind names its counter and its axis. */
  lemma KindIsInjective(a: string, axis: string, b: string, axis': string)
    requires ':' !in a && ':' !in b && Kind(a, axis) == Kind(b, axis')
    ensures a == b && axis == axis'
  {
    CutJoined(a, ':', axis);
    CutJoined(b, ':', axis');
  }

  lemma ValidKind(c: Config, tiers: map<string, Tier>, kind: string) returns (counter: string, axis: string)
    requires Valid(c) && IsTiers(c, tiers) && kind in tiers
    ensures Declares(c, kind, counter, axis) && ':' !in counter && ':' !in axis
  {
    counter, axis :| Declares(c, kind, counter, axis) && tiers[kind] == c.counters[counter].axes[axis];
    assert GoodCounter(c, counter) && GoodAxis(c, counter, axis);
    GoodNameHasNoColon(counter);
    KnownAxisHasNoColon(axis);
  }

  lemma KeyNamesBucket(n: string, x: string, key: string, m: string, y: string, key': string)
    requires ':' !in n && ':' !in x && ':' !in m && ':' !in y
    requires BucketKey(Ref(Kind(n, x), key)) == BucketKey(Ref(Kind(m, y), key'))
    ensures n == m && x == y && key == key'
  {
    var rest, rest' := x + ":" + key, y + ":" + key';
    var prefix := "cnt:bkt:";
    assert BucketKey(Ref(Kind(n, x), key)) == prefix + (n + ":" + rest);
    assert BucketKey(Ref(Kind(m, y), key')) == prefix + (m + ":" + rest');
    SamePrefix(prefix, n + ":" + rest, m + ":" + rest');
    CutJoined(n, ':', rest);
    CutJoined(m, ':', rest');
    CutJoined(x, ':', key);
    CutJoined(y, ':', key');
  }

  lemma SamePrefix(prefix: string, a: string, b: string)
    requires prefix + a == prefix + b
    ensures a == b
  {
    assert a == (prefix + a)[|prefix|..] && b == (prefix + b)[|prefix|..];
  }

  /** Two usable buckets of a valid configuration never share a key, whatever the subjects' keys look like. */
  lemma ValidKeysInjective(c: Config, tiers: map<string, Tier>)
    requires Valid(c) && IsTiers(c, tiers)
    ensures KeysInjective(tiers)
  {
    forall a, b | Usable(tiers, a) && Usable(tiers, b) && BucketKey(a) == BucketKey(b) ensures a == b {
      var n, x := ValidKind(c, tiers, a.kind);
      var m, y := ValidKind(c, tiers, b.kind);
      assert a == Ref(Kind(n, x), a.key) && b == Ref(Kind(m, y), b.key);
      KeyNamesBucket(n, x, a.key, m, y, b.key);
    }
  }

  /** An enabled kind that is another enabled kind followed by a colon and perhaps more. */
  ghost predicate Overlapping(tiers: map<string, Tier>, a: string, b: string) {
    TierOf(tiers, a).Enabled() && TierOf(tiers, b).Enabled() && a + ":" <= b
  }

  /** Usable buckets share a key if and only if two enabled kinds overlap. */
  lemma KeysInjectiveExactly(tiers: map<string, Tier>)
    ensures KeysInjective(tiers) <==> forall a, b :: !Overlapping(tiers, a, b)
  {
    if KeysInjective(tiers) {
      forall a, b ensures !Overlapping(tiers, a, b) {
        if Overlapping(tiers, a, b) {
          OverlapCollides(tiers, a, b);
        }
      }
    } else {
      var x, y :| Usable(tiers, x) && Usable(tiers, y) && BucketKey(x) == BucketKey(y) && x != y;
      CollisionOverlaps(x, y);
      assert Overlapping(tiers, x.kind, y.kind) || Overlapping(tiers, y.kind, x.kind);
    }
  }

  lemma OverlapCollides(tiers: map<string, Tier>, a: string, b: string)
    requires Overlapping(tiers, a, b)
    ensures !KeysInjective(tiers)
  {
    var rest := b[|a| + 1..];
    assert b == a + ":" + rest;
    var x, y := Ref(a, rest + ":k"), Ref(b, "k");
    assert |x.kind| != |y.kind|;
    assert BucketKey(x) == BucketKey(y);
    assert Usable(tiers, x) && Usable(tiers, y);
  }

  /** Two references with one key: one kind starts with the other and its colon. */
  lemma CollisionOverlaps(x: Ref, y: Ref)
    requires BucketKey(x) == BucketKey(y) && x != y
    ensures x.kind + ":" <= y.kind || y.kind + ":" <= x.kind
  {
    var prefix := "cnt:bkt:";
    assert BucketKey(x) == prefix + (x.kind + ":" + x.key) && BucketKey(y) == prefix + (y.kind + ":" + y.key);
    SamePrefix(prefix, x.kind + ":" + x.key, y.kind + ":" + y.key);
    var s := x.kind + ":" + x.key;
    var n, m := |x.kind|, |y.kind|;
    assert s[..n] == x.kind && s[n] == ':' && s[n + 1..] == x.key;
    assert s[..m] == y.kind && s[m] == ':' && s[m + 1..] == y.key;
    if n < m {
      assert y.kind[..n + 1] == s[..n + 1] == x.kind + ":";
    } else if m < n {
      assert x.kind[..m + 1] == s[..m + 1] == y.kind + ":";
    }
  }

  /** So the rule on names is needed: with counters `x` and `x:ip` two usable buckets share a key. */
  lemma NamesMatter(tier: Tier)
    requires tier.Enabled()
    ensures !KeysInjective(map[Kind("x", IP) := tier, Kind("x:ip", IP) := tier])
  {
    var tiers := map[Kind("x", IP) := tier, Kind("x:ip", IP) := tier];
    assert Kind("x", IP) + ":" <= Kind("x:ip", IP);
    assert Overlapping(tiers, Kind("x", IP), Kind("x:ip", IP));
    KeysInjectiveExactly(tiers);
  }

  /** Every declared axis has its own tier, and it is enabled. */
  lemma DeclaredIsEnabled(c: Config, tiers: map<string, Tier>, counter: string, axis: string)
    requires Valid(c) && IsTiers(c, tiers) && counter in c.counters && axis in c.counters[counter].axes
    ensures counter + ":" + axis in tiers && tiers[counter + ":" + axis] == c.counters[counter].axes[axis]
    ensures TierOf(tiers, Kind(counter, axis)).Enabled()
  {
    var kind := Kind(counter, axis);
    var n, x :| Declares(c, kind, n, x) && tiers[kind] == c.counters[n].axes[x];
    assert GoodCounter(c, counter) && GoodCounter(c, n) && GoodAxis(c, n, x);
    GoodNameHasNoColon(counter);
    GoodNameHasNoColon(n);
    KindIsInjective(counter, axis, n, x);
  }

  // ---------- lists of axes ----------

  /** Those of the listed axes that the counter has, in the order of the list. */
  function Present(c: Config, counter: string, want: seq<string>): seq<string> {
    if want == [] then []
    else
      var n := |want| - 1;
      Present(c, counter, want[..n]) + if c.HasAxis(counter, want[n]) then [want[n]] else []
  }

  lemma {:induction false} PresentMembers(c: Config, counter: string, want: seq<string>, axis: string)
    ensures axis in Present(c, counter, want) <==> axis in want && c.HasAxis(counter, axis)
  {
    if want != [] {
      var n := |want| - 1;
      PresentMembers(c, counter, want[..n], axis);
      assert want == want[..n] + [want[n]];
    }
  }

  lemma {:induction false} PresentDistinct(c: Config, counter: string, want: seq<string>)
    requires Distinct(want)
    ensures Distinct(Present(c, counter, want))
  {
    if want != [] {
      var n := |want| - 1;
      PresentDistinct(c, counter, want[..n]);
      PresentMembers(c, counter, want[..n], want[n]);
    }
  }

  method Select(c: Config, counter: string, want: seq<string>) returns (out: seq<string>)
    ensures out == Present(c, counter, want)
  {
    out := [];
    for i := 0 to |want|
      invariant out == Present(c, counter, want[..i])
    {
      assert want[..i + 1][..i] == want[..i];
      if c.HasAxis(counter, want[i]) {
        out := out + [want[i]];
      }
    }
    assert want[..|want|] == want;
  }

  /** Every axis of a counter, each once. */
  method AxesOf(c: Config, counter: string) returns (out: seq<string>)
    ensures forall axis :: axis in out <==>
              && axis in ["ip", "asn_net", "asn_router", "sess", "user", "conn"]
              && counter in c.counters && axis in c.counters[counter].axes
    ensures Distinct(out)
    ensures out == Present(c, counter, KNOWN_AXES)
  {
    out := Select(c, counter, KNOWN_AXES);
    forall axis ensures axis in out <==> axis in KNOWN_AXES && c.HasAxis(counter, axis) {
      PresentMembers(c, counter, KNOWN_AXES, axis);
    }
    PresentDistinct(c, counter, KNOWN_AXES);
  }

  /** The axes a neighbour's word reaches. */
  function Reach(wireAxis: string): seq<string> {
    if wireAxis == "ip" then [IP]
    else if wireAxis == "asn" then [NET, ROUTER]
    else if wireAxis == "session" then [SESS]
    else []
  }

  function NoteAxesOf(c: Config, counter: string, wireAxis: string): seq<string> {
    Present(c, counter, Reach(wireAxis))
  }

  method NoteAxes(c: Config, counter: string, wireAxis: string) returns (out: seq<string>)
    ensures out == NoteAxesOf(c, counter, wireAxis)
    ensures Distinct(out) && forall axis :: axis in out ==> c.HasAxis(counter, axis)
    ensures forall axis :: axis in out <==>
              && c.HasAxis(counter, axis)
              && ((wireAxis == "ip" && axis == "ip")
                  || (wireAxis == "asn" && (axis == "asn_net" || axis == "asn_router"))
                  || (wireAxis == "session" && axis == "sess"))
  {
    out := Select(c, counter, Reach(wireAxis));
    forall axis ensures axis in out <==> axis in Reach(wireAxis) && c.HasAxis(counter, axis) {
      PresentMembers(c, counter, Reach(wireAxis), axis);
    }
    PresentDistinct(c, counter, Reach(wireAxis));
  }
}
