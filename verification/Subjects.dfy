/** Whom a request counts against: the key of every axis asked for, gathered in one pass. */
module Subjects {
  import opened Wrappers
  import opened Counters

  datatype SubjectRef = SubjectRef(counter: string, axis: string)

  /** What a request says of its sender. `network` and `router` are what the address resolves to, `valueOf` what
      the cookies, headers and sessions hold under a source such as `cookie:name`; empty means unknown. */
  datatype Sender = Sender(clientIP: string, connID: string, network: string, router: string, valueOf: string -> string,
                           hash: string -> string)

  datatype Keys = Keys(byAxis: map<string, string>, bySource: map<string, string>)

  function IPKey(addr: string): string {
    if addr == "" then "" else if ':' in addr then addr + "/128" else addr + "/32"
  }

  function CookieSource(c: Config, counter: string): string {
    "cookie:" + c.SessCookie(counter)
  }

  /** The gathered key for an axis of a counter. */
  function KeyOf(c: Config, keys: Keys, counter: string, axis: string): Option<string> {
    if axis == SESS then Get(keys.bySource, CookieSource(c, counter))
    else if axis == USER then
      (if c.UserFrom(counter) == "" then None else Get(keys.bySource, c.UserFrom(counter)))
    else Get(keys.byAxis, axis)
  }

  function Hashed(from: Sender, source: string): Option<string> {
    if from.valueOf(source) == "" then None else Some(from.hash(from.valueOf(source)))
  }

  function AxisKey(from: Sender, axis: string): Option<string> {
    if axis == IP && from.clientIP != "" then Some(IPKey(from.clientIP))
    else if axis == CONN && from.connID != "" then Some("conn:" + from.connID)
    else if axis == NET && from.clientIP != "" && from.network != "" then Some(from.network)
    else if axis == ROUTER && from.clientIP != "" && from.router != "" then Some(from.router)
    else None
  }

  /** The key an axis of a counter has, whatever else is asked. */
  function Resolved(c: Config, from: Sender, counter: string, axis: string): Option<string> {
    if axis == SESS then Hashed(from, CookieSource(c, counter))
    else if axis == USER then (if c.UserFrom(counter) == "" then None else Hashed(from, c.UserFrom(counter)))
    else AxisKey(from, axis)
  }

  /** The address with the prefix length of a single host, told apart by the colon of the longer form; the connection
      under a name of its own; the network and the router the address resolves to; and a digest of what the session
      cookie or the user source holds, the counter's own if it has one and the shared one otherwise. Unknown values
      give no key. */
  lemma ResolvedSubjects(c: Config, from: Sender, counter: string, cookie: string, user: string)
    requires cookie == if counter in c.counters && c.counters[counter].sessCookie != "" then c.counters[counter].sessCookie
                       else c.sessCookie
    requires user == if counter in c.counters && c.counters[counter].userFrom != "" then c.counters[counter].userFrom
                     else c.userFrom
    ensures Resolved(c, from, counter, "ip")
         == if from.clientIP == "" then None
            else Some(from.clientIP + if ':' in from.clientIP then "/128" else "/32")
    ensures Resolved(c, from, counter, "conn") == if from.connID == "" then None else Some("conn:" + from.connID)
    ensures Resolved(c, from, counter, "asn_net")
         == if from.clientIP == "" || from.network == "" then None else Some(from.network)
    ensures Resolved(c, from, counter, "asn_router")
         == if from.clientIP == "" || from.router == "" then None else Some(from.router)
    ensures Resolved(c, from, counter, "sess")
         == if from.valueOf("cookie:" + cookie) == "" then None else Some(from.hash(from.valueOf("cookie:" + cookie)))
    ensures Resolved(c, from, counter, "user")
         == if user == "" || from.valueOf(user) == "" then None else Some(from.hash(from.valueOf(user)))
  {
    assert |IP| == 2 && |CONN| == 4 && |NET| == 7 && |ROUTER| == 10 && |SESS| == 4 && |USER| == 4;
    assert SESS[0] == 's' && USER[0] == 'u' && CONN[0] == 'c';
  }

  function SourceOf(c: Config, r: SubjectRef): Option<string> {
    if r.axis == SESS then Some(CookieSource(c, r.counter))
    else if r.axis == USER && c.UserFrom(r.counter) != "" then Some(c.UserFrom(r.counter))
    else None
  }

  ghost predicate NoEmptyKeys(c: Config, keys: Keys) {
    forall counter, axis :: KeyOf(c, keys, counter, axis) != Some("")
  }

  /** The keys for what is asked: exact for every reference asked, never wrong for any other. */
  method SubjectsOf(c: Config, refs: seq<SubjectRef>, from: Sender) returns (keys: Keys)
    ensures forall r :: r in refs ==> KeyOf(c, keys, r.counter, r.axis) == Resolved(c, from, r.counter, r.axis)
    ensures forall counter, axis :: KeyOf(c, keys, counter, axis).Some? ==>
      KeyOf(c, keys, counter, axis) == Resolved(c, from, counter, axis)
    ensures (forall v :: from.hash(v) != "") ==> NoEmptyKeys(c, keys)
  {
    var needed, sources := Scan(c, refs);
    var byAxis := GatherAxes(needed, from);
    var bySource := GatherSources(sources, from);
    keys := Keys(byAxis, bySource);
    forall r | r in refs ensures KeyOf(c, keys, r.counter, r.axis) == Resolved(c, from, r.counter, r.axis) {
      assert r.axis in needed;
      assert SourceOf(c, r).Some? ==> SourceOf(c, r).value in sources;
    }
    if forall v :: from.hash(v) != "" {
      forall counter, axis ensures KeyOf(c, keys, counter, axis) != Some("") {
        KeysAreNotEmpty(c, from, counter, axis);
      }
    }
  }

  function AxesIn(refs: seq<SubjectRef>): set<string> {
    set r | r in refs :: r.axis
  }

  function SourcesIn(c: Config, refs: seq<SubjectRef>): set<string> {
    set r | r in refs && SourceOf(c, r).Some? :: SourceOf(c, r).value
  }

  method Scan(c: Config, refs: seq<SubjectRef>) returns (needed: set<string>, sources: set<string>)
    ensures needed == AxesIn(refs) && sources == SourcesIn(c, refs)
  {
    needed, sources := {}, {};
    for i := 0 to |refs|
      invariant needed == AxesIn(refs[..i]) && sources == SourcesIn(c, refs[..i])
    {
      var r := refs[i];
      assert refs[..i + 1] == refs[..i] + [r];
      assert AxesIn(refs[..i + 1]) == AxesIn(refs[..i]) + {r.axis};
      assert SourcesIn(c, refs[..i + 1])
        == SourcesIn(c, refs[..i]) + if SourceOf(c, r).Some? then {SourceOf(c, r).value} else {};
      needed := needed + {r.axis};
      if r.axis == SESS {
        sources := sources + {CookieSource(c, r.counter)};
      } else if r.axis == USER && c.UserFrom(r.counter) != "" {
        sources := sources + {c.UserFrom(r.counter)};
      }
    }
    assert refs[..|refs|] == refs;
  }

  method GatherAxes(needed: set<string>, from: Sender) returns (byAxis: map<string, string>)
    ensures forall axis :: Get(byAxis, axis) == if axis in needed then AxisKey(from, axis) else None
  {
    byAxis := map[];
    if IP in needed && from.clientIP != "" {
      byAxis := byAxis[IP := IPKey(from.clientIP)];
    }
    if CONN in needed && from.connID != "" {
      byAxis := byAxis[CONN := "conn:" + from.connID];
    }
    if (NET in needed || ROUTER in needed) && from.clientIP != "" {
      if NET in needed && from.network != "" {
        byAxis := byAxis[NET := from.network];
      }
      if ROUTER in needed && from.router != "" {
        byAxis := byAxis[ROUTER := from.router];
      }
    }
    assert |IP| == 2 && |CONN| == 4 && |NET| == 7 && |ROUTER| == 10;
  }

  method GatherSources(sources: set<string>, from: Sender) returns (bySource: map<string, string>)
    ensures forall s :: Get(bySource, s) == if s in sources then Hashed(from, s) else None
  {
    bySource := map[];
    var rest := sources;
    while rest != {}
      invariant rest <= sources
      invariant forall s :: Get(bySource, s) == if s in sources - rest then Hashed(from, s) else None
    {
      var s :| s in rest;
      rest := rest - {s};
      ghost var before := bySource;
      var v := from.valueOf(s);
      if v != "" {
        bySource := bySource[s := from.hash(v)];
      }
      forall t ensures Get(bySource, t) == if t in sources - rest then Hashed(from, t) else None {
        assert t != s ==> Get(bySource, t) == Get(before, t);
      }
    }
  }

  /** With a hash that is never empty no key is, so every resolved subject has a usable bucket. */
  lemma KeysAreNotEmpty(c: Config, from: Sender, counter: string, axis: string)
    requires forall v :: from.hash(v) != ""
    ensures Resolved(c, from, counter, axis) != Some("")
  {}
}
