/** MX lookup (`get_mx_records`): the exchange names of a resolver answer, trailing dots
    removed, sorted as strings. The MX preference values play no part: the order is by
    hostname text, not the preference order of section 5.1 of RFC 5321. */
module Mx {
  import opened Text

  /** What the resolver gives for one MX query: the exchange names of the answer records
      (as text, usually with the root's trailing dot), or any error it raises
      (NXDOMAIN, no answer, timeout, ...). */
  datatype Resolution = Answer(exchanges: seq<string>) | ResolveError

  /** Each exchange name with every trailing '.' removed, in answer order. */
  function Stripped(exchanges: seq<string>): (r: seq<string>)
    ensures |r| == |exchanges|
    ensures forall k :: 0 <= k < |r| ==> r[k] == RStrip(exchanges[k], '.')
  {
    seq(|exchanges|, k requires 0 <= k < |exchanges| => RStrip(exchanges[k], '.'))
  }

  /** The MX host list: empty on any resolver error; otherwise one entry per answer record,
      without trailing dots, in ascending string order. */
  function GetMxRecords(res: Resolution): (hosts: seq<string>)
    ensures res.ResolveError? ==> hosts == []
    ensures res.Answer? ==> |hosts| == |res.exchanges|
    ensures res.Answer? ==> multiset(hosts) == multiset(Stripped(res.exchanges))
    ensures Sorted(hosts)
    ensures forall k :: 0 <= k < |hosts| ==> NoTrailingDot(hosts[k])
  {
    match res
    case ResolveError => []
    case Answer(exchanges) =>
      var hosts := Sort(Stripped(exchanges));
      assert |hosts| == |multiset(hosts)| == |Stripped(exchanges)|;
      SortKeepsStripped(exchanges, hosts);
      hosts
  }

  predicate NoTrailingDot(host: string)
  {
    |host| == 0 || host[|host| - 1] != '.'
  }

  lemma SortKeepsStripped(exchanges: seq<string>, hosts: seq<string>)
    requires multiset(hosts) == multiset(Stripped(exchanges))
    ensures forall k :: 0 <= k < |hosts| ==> NoTrailingDot(hosts[k])
  {
    var stripped := Stripped(exchanges);
    forall k | 0 <= k < |hosts|
      ensures NoTrailingDot(hosts[k])
    {
      assert hosts[k] in multiset(stripped);
      var j :| 0 <= j < |stripped| && stripped[j] == hosts[k];
    }
  }

  /** The host list is the only sorted arrangement of the stripped names: any sorted list
      with the same entries is it. */
  lemma GetMxRecordsUnique(exchanges: seq<string>, hosts: seq<string>)
    requires Sorted(hosts)
    requires multiset(hosts) == multiset(Stripped(exchanges))
    ensures GetMxRecords(Answer(exchanges)) == hosts
  {
    SortedUnique(GetMxRecords(Answer(exchanges)), hosts);
  }

  /** Every answer record contributes its stripped name, and nothing else appears. */
  lemma GetMxRecordsMembers(exchanges: seq<string>, host: string)
    ensures host in GetMxRecords(Answer(exchanges)) <==>
            exists k :: 0 <= k < |exchanges| && RStrip(exchanges[k], '.') == host
  {
    var hosts := GetMxRecords(Answer(exchanges));
    var stripped := Stripped(exchanges);
    assert host in hosts <==> host in multiset(hosts);
    assert host in stripped <==> host in multiset(stripped);
    if host in stripped {
      var k :| 0 <= k < |stripped| && stripped[k] == host;
      assert RStrip(exchanges[k], '.') == host;
    }
  }
}
