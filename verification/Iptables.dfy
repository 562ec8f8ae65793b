/** The iptables rules of a vserver. The INPUT chain of the filter table is kept in order, since an ACCEPT counts only
    before the REJECT that ends a vserver's rules; the chains of the other tables are multisets. Only rules of service
    addresses are modelled. */
module Iptables {
  import opened Types
  import opened Kernel

  /** The addresses of the cluster. */
  datatype Host = Host(ipv4: Option<IP>, ipv6: Option<IP>) {
    function Addr(af: AF): Option<IP> {
      if af.IPv4? then ipv4 else ipv6
    }

    function Families(): set<AF> {
      set af: AF | Addr(af).Some?
    }
  }

  datatype Rule =
    | Accept(vip: IP, proto: nat, port: nat)
    | AcceptICMP(vip: IP)
    | AcceptICMPv6(vip: IP)
    | Reject(vip: IP)
    | Mark(vip: IP, proto: nat, port: nat, mark: nat)
    | Track(vip: IP, proto: nat, port: nat)
    | Rewrite(vip: IP, proto: nat, port: nat, source: IP)
  {
    predicate InInput() { Accept? || AcceptICMP? || AcceptICMPv6? || Reject? }
  }

  function EntryRules(e: Entry, vip: IP, cluster: IP, mark: nat): seq<Rule> {
    [Accept(vip, e.proto, e.port)]
    + (if mark > 0 then [Mark(vip, e.proto, e.port, mark)] else [])
    + (if e.mode.LBNAT? then [Track(vip, e.proto, e.port), Rewrite(vip, e.proto, e.port, cluster)] else [])
  }

  function EntriesRules(es: seq<Entry>, vip: IP, cluster: IP, mark: nat): seq<Rule> {
    if es == [] then []
    else EntriesRules(es[..|es| - 1], vip, cluster, mark) + EntryRules(es[|es| - 1], vip, cluster, mark)
  }

  function MarkOf(snap: Snapshot, af: AF): nat {
    if af in snap.fwm then snap.fwm[af] else 0
  }

  /** The rules of a vserver for one family; None where the cluster or the vserver has no address of it. */
  function Rules(snap: Snapshot, cluster: Host, af: AF): Option<seq<Rule>> {
    if cluster.Addr(af).None? || snap.Addr(af).None? then None
    else
      var vip := snap.Addr(af).value;
      Some(EntriesRules(snap.entries, vip, cluster.Addr(af).value, MarkOf(snap, af)) +
           [AcceptICMP(vip), AcceptICMPv6(vip), Reject(vip)])
  }

  method IptablesRules(snap: Snapshot, cluster: Host, af: AF) returns (r: Option<seq<Rule>>)
    ensures r == Rules(snap, cluster, af) && (r.Some? <==> cluster.Addr(af).Some? && snap.Addr(af).Some?)
    ensures r.Some? ==> forall rule :: multiset(r.value)[rule] == RuleCount(snap, cluster, af, rule)
  {
    hide RuleCount;
    if cluster.Addr(af).None? {
      return None;
    }
    if snap.Addr(af).None? {
      return None;
    }
    var vip, all: seq<Rule> := snap.Addr(af).value, [];
    for i := 0 to |snap.entries|
      invariant all == EntriesRules(snap.entries[..i], vip, cluster.Addr(af).value, MarkOf(snap, af))
    {
      var e := snap.entries[i];
      var rules := [Accept(vip, e.proto, e.port)];
      if MarkOf(snap, af) > 0 {
        rules := rules + [Mark(vip, e.proto, e.port, MarkOf(snap, af))];
      }
      if e.mode.LBNAT? {
        rules := rules + [Track(vip, e.proto, e.port), Rewrite(vip, e.proto, e.port, cluster.Addr(af).value)];
      }
      assert snap.entries[..i + 1][..i] == snap.entries[..i];
      all := all + rules;
    }
    assert snap.entries[..|snap.entries|] == snap.entries;
    r := Some(all + [AcceptICMP(vip), AcceptICMPv6(vip), Reject(vip)]);
    RulesAreAll(snap, cluster, af);
  }

  // The tables.

  datatype Tables = Tables(input: seq<Rule>, others: multiset<Rule>)

  function RemoveFirst(s: seq<Rule>, r: Rule): seq<Rule>
    requires r in s
  {
    if s[0] == r then s[1..] else [s[0]] + RemoveFirst(s[1..], r)
  }

  function AddRule(t: Tables, r: Rule): Tables {
    if r.InInput() then t.(input := t.input + [r]) else t.(others := t.others + multiset{r})
  }

  /** Deletes the first rule like this one; None where there is none. */
  function DeleteRule(t: Tables, r: Rule): Option<Tables> {
    if r.InInput() then if r in t.input then Some(t.(input := RemoveFirst(t.input, r))) else None
    else if r in t.others then Some(t.(others := t.others - multiset{r})) else None
  }

  function AddAll(t: Tables, rules: seq<Rule>): Tables
    decreases |rules|
  {
    if rules == [] then t else AddAll(AddRule(t, rules[0]), rules[1..])
  }

  function DeleteAll(t: Tables, rules: seq<Rule>): Option<Tables>
    decreases |rules|
  {
    if rules == [] then Some(t)
    else
      var u := DeleteRule(t, rules[0]);
      if u.None? then None else DeleteAll(u.value, rules[1..])
  }

  /** The iptables command run rule by rule. */
  class Netfilter {
    var tables: Tables

    method AddRules(snap: Snapshot, cluster: Host, af: AF) returns (ok: bool)
      modifies this
      ensures ok <==> Rules(snap, cluster, af).Some?
      ensures tables == if ok then AddAll(old(tables), Rules(snap, cluster, af).value) else old(tables)
    {
      var rules := IptablesRules(snap, cluster, af);
      if rules.None? {
        return false;
      }
      for i := 0 to |rules.value|
        invariant AddAll(tables, rules.value[i..]) == AddAll(old(tables), rules.value)
      {
        assert rules.value[i..][1..] == rules.value[i + 1..];
        tables := AddRule(tables, rules.value[i]);
      }
      ok := true;
    }

    method DeleteRules(snap: Snapshot, cluster: Host, af: AF) returns (ok: bool)
      modifies this
      ensures ok <==> Rules(snap, cluster, af).Some? && DeleteAll(old(tables), Rules(snap, cluster, af).value).Some?
      ensures ok ==> Some(tables) == DeleteAll(old(tables), Rules(snap, cluster, af).value)
    {
      var rules := IptablesRules(snap, cluster, af);
      if rules.None? {
        return false;
      }
      for i := 0 to |rules.value|
        invariant DeleteAll(tables, rules.value[i..]) == DeleteAll(old(tables), rules.value)
      {
        assert rules.value[i..][1..] == rules.value[i + 1..];
        var t := DeleteRule(tables, rules.value[i]);
        if t.None? {
          return false;
        }
        tables := t.value;
      }
      ok := true;
    }
  }

  // What stands in the tables for one address.

  function InputOne(r: Rule, ip: IP): seq<Rule> {
    if r.InInput() && r.vip == ip then [r] else []
  }

  function OthersOne(r: Rule, ip: IP): multiset<Rule> {
    if !r.InInput() && r.vip == ip then multiset{r} else multiset{}
  }

  function InputOf(s: seq<Rule>, ip: IP): seq<Rule> {
    if s == [] then [] else InputOne(s[0], ip) + InputOf(s[1..], ip)
  }

  function OthersOf(s: seq<Rule>, ip: IP): multiset<Rule> {
    if s == [] then multiset{} else OthersOne(s[0], ip) + OthersOf(s[1..], ip)
  }

  lemma {:induction false} InputMore(s: seq<Rule>, r: Rule, ip: IP)
    ensures InputOf(s + [r], ip) == InputOf(s, ip) + InputOne(r, ip)
  {
    if s == [] {
      assert s + [r] == [r];
    } else {
      InputMore(s[1..], r, ip);
      assert (s + [r])[1..] == s[1..] + [r];
    }
  }

  lemma {:induction false} InputIn(s: seq<Rule>, ip: IP)
    ensures forall r | r in InputOf(s, ip) :: r in s && r.InInput() && r.vip == ip
  {
    if s != [] {
      InputIn(s[1..], ip);
    }
  }

  /** Deleting the rule that comes first among those of its address leaves the others of that address, and those of all
      other addresses, in order. */
  lemma {:induction false} InputLess(s: seq<Rule>, r: Rule, ip: IP)
    requires r.InInput() && InputOf(s, r.vip) != [] && InputOf(s, r.vip)[0] == r
    ensures r in s
    ensures InputOf(RemoveFirst(s, r), ip) == if ip == r.vip then InputOf(s, ip)[1..] else InputOf(s, ip)
    decreases |s|
  {
    if s[0] == r {
      assert s == [s[0]] + s[1..];
    } else {
      InputLess(s[1..], r, ip);
      var rest := RemoveFirst(s[1..], r);
      assert RemoveFirst(s, r) == [s[0]] + rest && ([s[0]] + rest)[1..] == rest;
    }
  }

  /** The rules of the address, in order where the order counts. */
  ghost predicate Holds(t: Tables, ip: IP, input: seq<Rule>, others: multiset<Rule>) {
    && InputOf(t.input, ip) == input
    && forall r: Rule | r.vip == ip :: t.others[r] == others[r]
  }

  predicate AllOf(rules: seq<Rule>, ip: IP) {
    forall r | r in rules :: r.vip == ip
  }

  lemma OneHolds(t: Tables, r: Rule, ip: IP, input: seq<Rule>, others: multiset<Rule>)
    requires Holds(t, ip, input, others)
    ensures Holds(AddRule(t, r), ip, input + InputOne(r, ip), others + OthersOne(r, ip))
  {
    InputMore(t.input, r, ip);
    assert input + [] == input;
  }

  lemma {:induction false} AddedHolds(t: Tables, rules: seq<Rule>, ip: IP, input: seq<Rule>, others: multiset<Rule>)
    requires Holds(t, ip, input, others)
    ensures Holds(AddAll(t, rules), ip, input + InputOf(rules, ip), others + OthersOf(rules, ip))
    decreases |rules|
  {
    hide Holds, AddRule, InputOne, OthersOne;
    if rules == [] {
      assert input + [] == input && others + multiset{} == others;
    } else {
      var r, i, o := rules[0], InputOne(rules[0], ip), OthersOne(rules[0], ip);
      OneHolds(t, r, ip, input, others);
      AddedHolds(AddRule(t, r), rules[1..], ip, input + i, others + o);
      assert input + i + InputOf(rules[1..], ip) == input + (i + InputOf(rules[1..], ip));
      assert others + o + OthersOf(rules[1..], ip) == others + (o + OthersOf(rules[1..], ip));
    }
  }

  lemma DeleteOne(t: Tables, r: Rule, input: seq<Rule>, others: multiset<Rule>)
    requires Holds(t, r.vip, input, others)
    requires if r.InInput() then input != [] && input[0] == r else r in others
    ensures DeleteRule(t, r).Some?
    ensures if r.InInput() then Holds(DeleteRule(t, r).value, r.vip, input[1..], others)
            else Holds(DeleteRule(t, r).value, r.vip, input, others - multiset{r})
    ensures forall ip | ip != r.vip :: InputOf(DeleteRule(t, r).value.input, ip) == InputOf(t.input, ip)
    ensures forall s: Rule | s.vip != r.vip :: DeleteRule(t, r).value.others[s] == t.others[s]
  {
    if r.InInput() {
      InputLess(t.input, r, r.vip);
      forall ip | ip != r.vip
        ensures InputOf(DeleteRule(t, r).value.input, ip) == InputOf(t.input, ip)
      {
        InputLess(t.input, r, ip);
      }
    }
  }

  /** The address's own rules can all be deleted, in any order of the others, and nothing of other addresses goes. */
  lemma {:induction false} DeletedHolds(t: Tables, rules: seq<Rule>, vip: IP, ip: IP, input: seq<Rule>,
                                        others: multiset<Rule>)
    requires AllOf(rules, vip) && Holds(t, vip, InputOf(rules, vip), OthersOf(rules, vip))
    requires ip != vip ==> Holds(t, ip, input, others)
    ensures DeleteAll(t, rules).Some?
    ensures Holds(DeleteAll(t, rules).value, vip, [], multiset{})
    ensures ip != vip ==> Holds(DeleteAll(t, rules).value, ip, input, others)
    decreases |rules|
  {
    if rules != [] {
      var r := rules[0];
      DeleteOne(t, r, InputOf(rules, vip), OthersOf(rules, vip));
      assert r.InInput() ==> InputOf(rules, vip)[1..] == InputOf(rules[1..], vip);
      assert !r.InInput() ==> OthersOf(rules, vip) - multiset{r} == OthersOf(rules[1..], vip);
      DeletedHolds(DeleteRule(t, r).value, rules[1..], vip, ip, input, others);
    }
  }

  // Whole runs of a vserver's commands.

  function Exec(t: Tables, c: Command, cluster: Host): Option<Tables> {
    match c
    case AddVserver(snap, af) =>
      if Rules(snap, cluster, af).None? then None else Some(AddAll(t, Rules(snap, cluster, af).value))
    case DeleteVserver(snap, af) =>
      if Rules(snap, cluster, af).None? then None else DeleteAll(t, Rules(snap, cluster, af).value)
    case _ => Some(t)
  }

  const EMPTY_TABLES := Tables([], multiset{})

  function ReplayRules(cs: seq<Command>, cluster: Host): Option<Tables> {
    if cs == [] then Some(EMPTY_TABLES)
    else
      var before := ReplayRules(cs[..|cs| - 1], cluster);
      if before.None? then None else Exec(before.value, cs[|cs| - 1], cluster)
  }

  function InputWanted(vservers: map<IP, Snapshot>, cluster: Host, ip: IP): seq<Rule> {
    if ip in vservers && Rules(vservers[ip], cluster, ip.af).Some?
    then InputOf(Rules(vservers[ip], cluster, ip.af).value, ip)
    else []
  }

  function OthersWanted(vservers: map<IP, Snapshot>, cluster: Host, ip: IP): multiset<Rule> {
    if ip in vservers && Rules(vservers[ip], cluster, ip.af).Some?
    then OthersOf(Rules(vservers[ip], cluster, ip.af).value, ip)
    else multiset{}
  }

  /** The tables hold exactly the rules of the vservers on the interface. */
  ghost predicate RulesFit(t: Tables, vservers: map<IP, Snapshot>, cluster: Host) {
    forall ip: IP :: Holds(t, ip, InputWanted(vservers, cluster, ip), OthersWanted(vservers, cluster, ip))
  }

  lemma {:induction false} EntriesOf(es: seq<Entry>, vip: IP, cluster: IP, mark: nat)
    ensures AllOf(EntriesRules(es, vip, cluster, mark), vip)
  {
    if es != [] {
      EntriesOf(es[..|es| - 1], vip, cluster, mark);
    }
  }

  lemma RulesOfAddress(snap: Snapshot, cluster: Host, af: AF)
    requires Rules(snap, cluster, af).Some?
    ensures AllOf(Rules(snap, cluster, af).value, snap.Addr(af).value)
  {
    EntriesOf(snap.entries, snap.Addr(af).value, cluster.Addr(af).value, MarkOf(snap, af));
  }

  lemma AddFits(t: Tables, st: State, snap: Snapshot, af: AF, cluster: Host)
    requires RulesFit(t, st.vservers, cluster) && cluster.Addr(af).Some? && Kernel.Exec(st, AddVserver(snap, af)).Some?
    ensures Exec(t, AddVserver(snap, af), cluster).Some?
    ensures RulesFit(Exec(t, AddVserver(snap, af), cluster).value, Kernel.Exec(st, AddVserver(snap, af)).value.vservers,
                     cluster)
  {
    hide Rules, Holds, InputOf, OthersOf, AllOf, AddAll;
    assert Rules(snap, cluster, af).Some? by { RulesWhen(snap, cluster, af); }
    var vip, rules := snap.Addr(af).value, Rules(snap, cluster, af).value;
    RulesOfAddress(snap, cluster, af);
    var after := st.vservers[vip := snap];
    forall ip: IP
      ensures Holds(AddAll(t, rules), ip, InputWanted(after, cluster, ip), OthersWanted(after, cluster, ip))
    {
      var input, others := InputWanted(st.vservers, cluster, ip), OthersWanted(st.vservers, cluster, ip);
      AddedHolds(t, rules, ip, input, others);
      if ip == vip {
        assert [] + InputOf(rules, ip) == InputOf(rules, ip) && multiset{} + OthersOf(rules, ip) == OthersOf(rules, ip);
      } else {
        NoneElsewhere(rules, vip, ip);
        assert input + [] == input && others + multiset{} == others;
      }
    }
  }

  lemma RulesWhen(snap: Snapshot, cluster: Host, af: AF)
    ensures Rules(snap, cluster, af).Some? <==> cluster.Addr(af).Some? && snap.Addr(af).Some?
  {
  }

  lemma {:induction false} NoneElsewhere(rules: seq<Rule>, vip: IP, ip: IP)
    requires AllOf(rules, vip) && ip != vip
    ensures InputOf(rules, ip) == [] && OthersOf(rules, ip) == multiset{}
  {
    if rules != [] {
      NoneElsewhere(rules[1..], vip, ip);
    }
  }

  lemma DeleteFits(t: Tables, st: State, snap: Snapshot, af: AF, cluster: Host)
    requires RulesFit(t, st.vservers, cluster) && cluster.Addr(af).Some? &&
             Kernel.Exec(st, DeleteVserver(snap, af)).Some?
    ensures Exec(t, DeleteVserver(snap, af), cluster).Some?
    ensures RulesFit(Exec(t, DeleteVserver(snap, af), cluster).value,
                     Kernel.Exec(st, DeleteVserver(snap, af)).value.vservers, cluster)
  {
    hide Rules, Holds;
    assert Rules(snap, cluster, af).Some? by { RulesWhen(snap, cluster, af); }
    var vip, rules := snap.Addr(af).value, Rules(snap, cluster, af).value;
    RulesOfAddress(snap, cluster, af);
    var after := st.vservers - {vip};
    assert Holds(t, vip, InputOf(rules, vip), OthersOf(rules, vip)) by {
      assert Holds(t, vip, InputWanted(st.vservers, cluster, vip), OthersWanted(st.vservers, cluster, vip));
    }
    DeletedHolds(t, rules, vip, vip, [], multiset{});
    forall ip: IP
      ensures Holds(DeleteAll(t, rules).value, ip, InputWanted(after, cluster, ip), OthersWanted(after, cluster, ip))
    {
      DeletedHolds(t, rules, vip, ip, InputWanted(st.vservers, cluster, ip), OthersWanted(st.vservers, cluster, ip));
    }
  }

  lemma {:induction false} StillAdded(cs: seq<Command>, st: State, cluster: Host)
    requires Replay(cs) == Some(st) && AddsIn(cs, cluster.Families())
    ensures forall ip | ip in st.vservers :: cluster.Addr(ip.af).Some?
  {
    if cs != [] {
      StillAdded(cs[..|cs| - 1], Replay(cs[..|cs| - 1]).value, cluster);
      assert cs[|cs| - 1] in cs;
    }
  }

  /** Each iptables command succeeds, and the tables hold exactly the rules of the vservers now on the interface:
      whatever was added for one that has gone is gone too. */
  ghost predicate Followed(cs: seq<Command>, st: State, cluster: Host) {
    ReplayRules(cs, cluster).Some? && RulesFit(ReplayRules(cs, cluster).value, st.vservers, cluster)
  }

  /** Over any legal run of commands the rules follow if and only if the cluster has an address in every family for
      which a vserver is put on the interface; else some iptables command fails. */
  lemma {:induction false} RulesFollow(cs: seq<Command>, st: State, cluster: Host)
    requires Replay(cs) == Some(st)
    ensures Followed(cs, st, cluster) <==> AddsIn(cs, cluster.Families())
    ensures ReplayRules(cs, cluster).Some? <==> AddsIn(cs, cluster.Families())
  {
    hide RulesFit;
    if cs == [] {
      EmptyFits(cluster);
    } else {
      var front, c := cs[..|cs| - 1], cs[|cs| - 1];
      var before := Replay(front).value;
      RulesFollow(front, before, cluster);
      assert forall d :: d in cs <==> d in front || d == c;
      if AddsIn(cs, cluster.Families()) {
        var t := ReplayRules(front, cluster).value;
        if c.AddVserver? {
          AddFits(t, before, c.snap, c.af, cluster);
        } else if c.DeleteVserver? {
          StillAdded(front, before, cluster);
          DeleteFits(t, before, c.snap, c.af, cluster);
        }
      }
    }
  }

  lemma EmptyFits(cluster: Host)
    ensures RulesFit(EMPTY_TABLES, map[], cluster)
  {
  }

  /** Two points of a run with the same vservers on the interface have the same rules for each address, in the same
      order where it counts; with none, no rule is left. */
  lemma RulesReturn(cs: seq<Command>, ds: seq<Command>, cluster: Host, ip: IP)
    requires Replay(cs).Some? && Replay(ds).Some? && Replay(cs).value.vservers == Replay(ds).value.vservers
    requires ReplayRules(cs, cluster).Some? && ReplayRules(ds, cluster).Some?
    ensures var t, u := ReplayRules(cs, cluster).value, ReplayRules(ds, cluster).value;
            InputOf(t.input, ip) == InputOf(u.input, ip) && t.others == u.others
    ensures Replay(cs).value.vservers == map[] ==>
              ReplayRules(cs, cluster).value.others == multiset{} &&
                  InputOf(ReplayRules(cs, cluster).value.input, ip) == []
  {
    hide InputWanted, OthersWanted, InputOf, OthersOf, ReplayRules;
    RulesFollow(cs, Replay(cs).value, cluster);
    RulesFollow(ds, Replay(ds).value, cluster);
    var t, u := ReplayRules(cs, cluster).value, ReplayRules(ds, cluster).value;
    var vs := Replay(cs).value.vservers;
    assert Holds(t, ip, InputWanted(vs, cluster, ip), OthersWanted(vs, cluster, ip));
    assert Holds(u, ip, InputWanted(vs, cluster, ip), OthersWanted(vs, cluster, ip));
    forall r: Rule
      ensures t.others[r] == u.others[r] && (vs == map[] ==> t.others[r] == 0)
    {
      assert Holds(t, r.vip, InputWanted(vs, cluster, r.vip), OthersWanted(vs, cluster, r.vip));
      assert Holds(u, r.vip, InputWanted(vs, cluster, r.vip), OthersWanted(vs, cluster, r.vip));
      NothingWanted(vs, cluster, r.vip);
    }
    NothingWanted(vs, cluster, ip);
  }

  lemma NothingWanted(vs: map<IP, Snapshot>, cluster: Host, ip: IP)
    ensures ip !in vs ==> InputWanted(vs, cluster, ip) == [] && OthersWanted(vs, cluster, ip) == multiset{}
  {
  }

  /** In the INPUT chain a vserver's REJECT comes after its services' ACCEPTs, one for each entry in order. */
  lemma RejectLast(snap: Snapshot, cluster: Host, af: AF)
    requires Rules(snap, cluster, af).Some?
    ensures var vip, input := snap.Addr(af).value, InputOf(Rules(snap, cluster, af).value, snap.Addr(af).value);
            && |input| == |snap.entries| + 3 &&
               input[|snap.entries|..] == [AcceptICMP(vip), AcceptICMPv6(vip), Reject(vip)]
            && forall i | 0 <= i < |snap.entries| ::
               input[i] == Accept(vip, snap.entries[i].proto, snap.entries[i].port)
  {
    hide InputOf, EntriesRules;
    var vip, mark, c := snap.Addr(af).value, MarkOf(snap, af), cluster.Addr(af).value;
    Accepts(snap.entries, vip, c, mark);
    ClosingRules(EntriesRules(snap.entries, vip, c, mark), vip);
  }

  lemma ClosingRules(rules: seq<Rule>, vip: IP)
    ensures var end := [AcceptICMP(vip), AcceptICMPv6(vip), Reject(vip)];
            InputOf(rules + end, vip) == InputOf(rules, vip) + end
  {
    hide InputOf;
    InputMore(rules, AcceptICMP(vip), vip);
    InputMore(rules + [AcceptICMP(vip)], AcceptICMPv6(vip), vip);
    InputMore(rules + [AcceptICMP(vip)] + [AcceptICMPv6(vip)], Reject(vip), vip);
    assert rules + [AcceptICMP(vip), AcceptICMPv6(vip), Reject(vip)] ==
           rules + [AcceptICMP(vip)] + [AcceptICMPv6(vip)] + [Reject(vip)];
  }

  lemma {:induction false} Accepts(es: seq<Entry>, vip: IP, cluster: IP, mark: nat)
    ensures var input := InputOf(EntriesRules(es, vip, cluster, mark), vip);
            |input| == |es| && forall i | 0 <= i < |es| :: input[i] == Accept(vip, es[i].proto, es[i].port)
  {
    if es != [] {
      var front, e := EntriesRules(es[..|es| - 1], vip, cluster, mark), es[|es| - 1];
      Accepts(es[..|es| - 1], vip, cluster, mark);
      InputJoin(front, EntryRules(e, vip, cluster, mark), vip);
      EntryInput(e, vip, cluster, mark);
    }
  }

  // What the rules of a vserver are, entry by entry.

  /** The entries of a protocol and port; only those in NAT mode, if so asked. */
  function Entries(es: seq<Entry>, proto: nat, port: nat, natOnly: bool): set<nat> {
    set i: nat | i < |es| && OfKind(es[i], proto, port, natOnly)
  }

  predicate OfKind(e: Entry, proto: nat, port: nat, natOnly: bool) {
    e.proto == proto && e.port == port && (natOnly ==> e.mode.LBNAT?)
  }

  lemma EntriesMore(es: seq<Entry>, proto: nat, port: nat, natOnly: bool)
    requires es != []
    ensures var n, e := |es| - 1, es[|es| - 1];
            |Entries(es, proto, port, natOnly)| == |Entries(es[..n], proto, port, natOnly)| +
                if OfKind(e, proto, port, natOnly) then 1 else 0
  {
    hide OfKind;
    var n := |es| - 1;
    var front := Entries(es[..n], proto, port, natOnly);
    if OfKind(es[n], proto, port, natOnly) {
      assert Entries(es, proto, port, natOnly) == front + {n};
    } else {
      assert Entries(es, proto, port, natOnly) == front;
    }
  }

  lemma OneEntry(e: Entry, proto: nat, port: nat, natOnly: bool)
    ensures Entries([], proto, port, natOnly) == {}
    ensures |Entries([e], proto, port, natOnly)| ==
            if e.proto == proto && e.port == port && (natOnly ==> e.mode.LBNAT?) then 1 else 0
  {
    EntriesMore([e], proto, port, natOnly);
    assert [e][..0] == [] && Entries([], proto, port, natOnly) == {};
  }

  /** How often a rule other than the first and last ones of a vserver is asked for: once for each entry it is of. A
      service is accepted; its packets are marked where the vserver has a mark; and where it is in NAT mode they are
      tracked, and their source rewritten to the address of the cluster. */
  function Asked(es: seq<Entry>, vip: IP, cluster: IP, mark: nat, r: Rule): nat {
    if r.vip != vip then 0
    else
      match r
      case Accept(_, proto, port) => |Entries(es, proto, port, false)|
      case Mark(_, proto, port, m) => if m == mark && m > 0 then |Entries(es, proto, port, false)| else 0
      case Track(_, proto, port) => |Entries(es, proto, port, true)|
      case Rewrite(_, proto, port, source) => if source == cluster then |Entries(es, proto, port, true)| else 0
      case _ => 0
  }

  lemma EntryRulesAre(e: Entry, vip: IP, cluster: IP, mark: nat, r: Rule)
    ensures multiset(EntryRules(e, vip, cluster, mark))[r] == Asked([e], vip, cluster, mark, r)
  {
    var a := multiset([Accept(vip, e.proto, e.port)]);
    var m := if mark > 0 then [Mark(vip, e.proto, e.port, mark)] else [];
    var n := if e.mode.LBNAT? then [Track(vip, e.proto, e.port), Rewrite(vip, e.proto, e.port, cluster)] else [];
    assert multiset(EntryRules(e, vip, cluster, mark)) == a + multiset(m) + multiset(n);
    if r.Accept? || r.Mark? || r.Track? || r.Rewrite? {
      OneEntry(e, r.proto, r.port, false);
      OneEntry(e, r.proto, r.port, true);
    }
  }

  lemma {:induction false} EntriesRulesAre(es: seq<Entry>, vip: IP, cluster: IP, mark: nat, r: Rule)
    ensures multiset(EntriesRules(es, vip, cluster, mark))[r] == Asked(es, vip, cluster, mark, r)
  {
    hide EntryRules;
    if es == [] {
      NoneAsked(vip, cluster, mark, r);
    } else {
      var front, e := es[..|es| - 1], es[|es| - 1];
      EntriesRulesAre(front, vip, cluster, mark, r);
      EntryRulesAre(e, vip, cluster, mark, r);
      AskedMore(es, vip, cluster, mark, r);
    }
  }

  lemma NoneAsked(vip: IP, cluster: IP, mark: nat, r: Rule)
    ensures Asked([], vip, cluster, mark, r) == 0
  {
    if r.Accept? || r.Mark? || r.Track? || r.Rewrite? {
      assert forall nat_ :: Entries([], r.proto, r.port, nat_) == {};
    }
  }

  lemma AskedMore(es: seq<Entry>, vip: IP, cluster: IP, mark: nat, r: Rule)
    requires es != []
    ensures Asked(es, vip, cluster, mark, r) ==
            Asked(es[..|es| - 1], vip, cluster, mark, r) + Asked([es[|es| - 1]], vip, cluster, mark, r)
  {
    if r.Accept? || r.Mark? || r.Track? || r.Rewrite? {
      var e := es[|es| - 1];
      EntriesMore(es, r.proto, r.port, false);
      EntriesMore(es, r.proto, r.port, true);
      OneEntry(e, r.proto, r.port, false);
      OneEntry(e, r.proto, r.port, true);
    }
  }

  /** How often a rule is asked for by a vserver: for each entry as above, and three rules for the address itself. */
  function RuleCount(snap: Snapshot, cluster: Host, af: AF, r: Rule): nat
    requires cluster.Addr(af).Some? && snap.Addr(af).Some?
  {
    var vip := snap.Addr(af).value;
    if r == AcceptICMP(vip) || r == AcceptICMPv6(vip) || r == Reject(vip) then 1
    else Asked(snap.entries, vip, cluster.Addr(af).value, if af in snap.fwm then snap.fwm[af] else 0, r)
  }

  lemma RulesAre(snap: Snapshot, cluster: Host, af: AF, r: Rule)
    requires Rules(snap, cluster, af).Some?
    ensures multiset(Rules(snap, cluster, af).value)[r] == RuleCount(snap, cluster, af, r)
  {
    hide EntriesRules, Asked;
    var vip, c, mark := snap.Addr(af).value, cluster.Addr(af).value, MarkOf(snap, af);
    EntriesRulesAre(snap.entries, vip, c, mark, r);
    NotOfEntry(snap.entries, vip, c, mark, r);
  }

  lemma RulesAreAll(snap: Snapshot, cluster: Host, af: AF)
    requires Rules(snap, cluster, af).Some?
    ensures forall r :: multiset(Rules(snap, cluster, af).value)[r] == RuleCount(snap, cluster, af, r)
  {
    hide RuleCount;
    forall r
      ensures multiset(Rules(snap, cluster, af).value)[r] == RuleCount(snap, cluster, af, r)
    {
      RulesAre(snap, cluster, af, r);
    }
  }

  /** The same, as to which rules there are. */
  lemma RulesIff(snap: Snapshot, cluster: Host, af: AF, v: IP, p: nat, q: nat, m: nat, source: IP)
    requires Rules(snap, cluster, af).Some?
    ensures var rules := Rules(snap, cluster, af).value;
            var ours := Some(v) == snap.Addr(af);
            var entry := exists e :: e in snap.entries && e.proto == p && e.port == q;
            var nat_ := exists e :: e in snap.entries && e.proto == p && e.port == q && e.mode.LBNAT?;
            && (Accept(v, p, q) in rules <==> ours && entry)
            && (Mark(v, p, q, m) in rules <==> ours && entry && af in snap.fwm && m == snap.fwm[af] && m > 0)
            && (Track(v, p, q) in rules <==> ours && nat_)
            && (Rewrite(v, p, q, source) in rules <==> ours && nat_ && Some(source) == cluster.Addr(af))
            && (AcceptICMP(v) in rules <==> ours) && (AcceptICMPv6(v) in rules <==> ours)
            && (Reject(v) in rules <==> ours)
  {
    hide Rules;
    RulesWhen(snap, cluster, af);
    RulesAre(snap, cluster, af, Accept(v, p, q));
    RulesAre(snap, cluster, af, Mark(v, p, q, m));
    RulesAre(snap, cluster, af, Track(v, p, q));
    RulesAre(snap, cluster, af, Rewrite(v, p, q, source));
    RulesAre(snap, cluster, af, AcceptICMP(v));
    RulesAre(snap, cluster, af, AcceptICMPv6(v));
    RulesAre(snap, cluster, af, Reject(v));
    SomeEntry(snap.entries, p, q, false);
    SomeEntry(snap.entries, p, q, true);
  }

  lemma SomeEntry(es: seq<Entry>, proto: nat, port: nat, natOnly: bool)
    ensures |Entries(es, proto, port, natOnly)| > 0 <==>
              exists e :: e in es && e.proto == proto && e.port == port && (natOnly ==> e.mode.LBNAT?)
  {
    var hits := Entries(es, proto, port, natOnly);
    if e :| e in es && e.proto == proto && e.port == port && (natOnly ==> e.mode.LBNAT?) {
      var i: nat :| i < |es| && es[i] == e;
      assert i in hits;
    }
    if hits != {} {
      var i :| i in hits;
      assert es[i] in es;
    }
  }

  lemma NotOfEntry(es: seq<Entry>, vip: IP, cluster: IP, mark: nat, r: Rule)
    ensures r.AcceptICMP? || r.AcceptICMPv6? || r.Reject? ==> Asked(es, vip, cluster, mark, r) == 0
  {
  }

  lemma {:induction false} OthersAre(s: seq<Rule>, ip: IP, r: Rule)
    requires !r.InInput() && r.vip == ip
    ensures OthersOf(s, ip)[r] == multiset(s)[r]
  {
    if s != [] {
      OthersAre(s[1..], ip, r);
      assert s == [s[0]] + s[1..];
    }
  }

  lemma {:induction false} InputAre(s: seq<Rule>, ip: IP, r: Rule)
    requires r.InInput() && r.vip == ip
    ensures multiset(InputOf(s, ip))[r] == multiset(s)[r]
  {
    if s != [] {
      InputAre(s[1..], ip, r);
      assert s == [s[0]] + s[1..];
    }
  }

  /** In the tables a run leads to stands, for an address on the interface, each rule as often as its vserver asks for
      it; for another address there is none. */
  lemma TablesAre(cs: seq<Command>, st: State, cluster: Host, r: Rule)
    requires Replay(cs) == Some(st) && ReplayRules(cs, cluster).Some? && !r.InInput()
    ensures var t := ReplayRules(cs, cluster).value;
            t.others[r] ==
                if r.vip in st.vservers && cluster.Addr(r.vip.af).Some? && st.vservers[r.vip].Addr(r.vip.af).Some?
                then RuleCount(st.vservers[r.vip], cluster, r.vip.af, r) else 0
  {
    hide Rules, RuleCount, OthersOf, ReplayRules, Replay;
    RulesFollow(cs, st, cluster);
    var t := ReplayRules(cs, cluster).value;
    assert Holds(t, r.vip, InputWanted(st.vservers, cluster, r.vip), OthersWanted(st.vservers, cluster, r.vip));
    if r.vip in st.vservers {
      var snap := st.vservers[r.vip];
      RulesWhen(snap, cluster, r.vip.af);
      if Rules(snap, cluster, r.vip.af).Some? {
        OthersAre(Rules(snap, cluster, r.vip.af).value, r.vip, r);
        RulesAre(snap, cluster, r.vip.af, r);
      }
    }
  }

  lemma {:induction false} NotInInput(s: seq<Rule>, ip: IP)
    requires forall r | r in s :: !r.InInput()
    ensures InputOf(s, ip) == []
  {
    if s != [] {
      NotInInput(s[1..], ip);
    }
  }

  lemma EntryInput(e: Entry, vip: IP, cluster: IP, mark: nat)
    ensures InputOf(EntryRules(e, vip, cluster, mark), vip) == [Accept(vip, e.proto, e.port)]
  {
    var a := [Accept(vip, e.proto, e.port)];
    var m := if mark > 0 then [Mark(vip, e.proto, e.port, mark)] else [];
    var n := if e.mode.LBNAT? then [Track(vip, e.proto, e.port), Rewrite(vip, e.proto, e.port, cluster)] else [];
    InputJoin(a + m, n, vip);
    InputJoin(a, m, vip);
    NotInInput(m, vip);
    NotInInput(n, vip);
    assert InputOf(a, vip) == a;
  }

  lemma {:induction false} InputJoin(s: seq<Rule>, t: seq<Rule>, ip: IP)
    ensures InputOf(s + t, ip) == InputOf(s, ip) + InputOf(t, ip)
  {
    if s == [] {
      assert s + t == t;
    } else {
      InputJoin(s[1..], t, ip);
      assert (s + t)[1..] == s[1..] + t;
    }
  }
}
