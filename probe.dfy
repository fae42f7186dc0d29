/** The deliverability probe (`verify_email_smtp`): take the domain of the address, look up
    its MX hosts, and hold an SMTP conversation with each host in turn until one accepts
    the recipient with reply code 250 (section 4.2.3 of RFC 5321). DNS and SMTP are not
    run here: the model receives their outcomes as a `Network`. */
module Smtp {
  import opened Text
  import opened Mx

  /** The SMTP reply code for "requested action completed" that the probe accepts after RCPT. */
  const ACCEPTED: int := 250

  /** How one host's exchange (connect, HELO, MAIL FROM, RCPT TO, QUIT) ended.
      `Code(c)`: every command returned, and RCPT replied `c`.
      `CaughtError`: one of the exceptions the probe catches (a socket error or any SMTP
      exception), raised at any point of the exchange, QUIT included.
      `UncaughtError`: any other exception, which leaves the probe. */
  datatype SmtpOutcome = Code(code: int) | CaughtError | UncaughtError

  /** The outside world one probe sees: the resolver's answer for a domain, and the outcome
      of the i-th connection attempt of the probe, made to the given host. */
  datatype Network = Network(resolve: string -> Resolution, exchange: (nat, string) -> SmtpOutcome)

  /** How a probe ended, with the hosts it connected to, in order. `Raised` is an exception
      escaping the probe. */
  datatype ProbeResult = Returned(valid: bool, attempted: seq<string>) | Raised(attempted: seq<string>)

  /** The outcomes after which the probe goes on to the next host. */
  predicate MovesOn(o: SmtpOutcome)
    ensures MovesOn(o) ==> o != Code(ACCEPTED) && !o.UncaughtError?
    ensures !MovesOn(o) ==> o == Code(ACCEPTED) || o.UncaughtError?
  {
    match o
    case Code(c) => c != ACCEPTED
    case CaughtError => true
    case UncaughtError => false
  }

  /** `email.split('@')[1]`: the second '@'-separated field, or `None` where indexing it
      raises (no '@' at all). */
  function Domain(email: string): (d: Option<string>)
    ensures d.None? <==> '@' !in email
    ensures d.Some? ==> '@' !in d.value
  {
    var fields := Split(email, '@');
    JoinFirstSep(fields, '@');
    if |fields| >= 2 then Some(fields[1]) else None
  }

  /** For `local@domain` followed by nothing or by a further '@', the probed domain is exactly
      the text between the first and the second '@'. */
  lemma DomainIsSecondField(local: string, domain: string, rest: string)
    requires '@' !in local && '@' !in domain
    requires rest == [] || rest[0] == '@'
    ensures Domain(local + "@" + domain + rest) == Some(domain)
  {
    var email := local + "@" + domain + rest;
    var fields: seq<string>;
    if rest == [] {
      fields := [local, domain];
      assert Join(fields, '@') == local + "@" + domain by {
        assert Join(fields[1..], '@') == domain;
      }
    } else {
      var more := Split(rest[1..], '@');
      fields := [local, domain] + more;
      assert Join(fields, '@') == email by {
        assert fields[1..] == [domain] + more;
        assert fields[1..][1..] == more;
        assert rest == "@" + rest[1..];
      }
    }
    assert email == local + "@" + domain + rest;
    JoinInjective(Split(email, '@'), fields, '@');
  }

  /** The `for mx in mx_records` loop from the host at index `i` on: the first host whose
      outcome does not move on decides; running out of hosts gives `False`. */
  function TryFrom(hosts: seq<string>, exchange: (nat, string) -> SmtpOutcome, i: nat): (r: ProbeResult)
    requires i <= |hosts|
    ensures i <= |r.attempted| <= |hosts| && r.attempted == hosts[..|r.attempted|]
    ensures r.Returned? && r.valid ==>
              i < |r.attempted| && exchange(|r.attempted| - 1, hosts[|r.attempted| - 1]) == Code(ACCEPTED)
    ensures r.Raised? ==>
              i < |r.attempted| && exchange(|r.attempted| - 1, hosts[|r.attempted| - 1]).UncaughtError?
    ensures r.Returned? && !r.valid ==> r.attempted == hosts
    ensures forall j :: i <= j < |r.attempted| && ((r.Returned? && !r.valid) || j < |r.attempted| - 1) ==>
              MovesOn(exchange(j, hosts[j]))
    decreases |hosts| - i
  {
    if i == |hosts| then
      Returned(false, hosts)
    else
      match exchange(i, hosts[i])
      case Code(c) =>
        if c == ACCEPTED then Returned(true, hosts[..i + 1]) else TryFrom(hosts, exchange, i + 1)
      case CaughtError => TryFrom(hosts, exchange, i + 1)
      case UncaughtError => Raised(hosts[..i + 1])
  }

  /** The MX hosts the probe of `email` works through, when the address has a domain. */
  function HostsOf(email: string, net: Network): (hosts: seq<string>)
    ensures '@' !in email ==> hosts == []
    ensures Sorted(hosts)
    ensures forall k :: 0 <= k < |hosts| ==> NoTrailingDot(hosts[k])
  {
    match Domain(email)
    case None => []
    case Some(domain) => GetMxRecords(net.resolve(domain))
  }

  /** The whole probe of one address: the hosts it connects to are a prefix of the domain's
      MX list, all of it when the verdict is `False`, and a `True` verdict comes from a 250
      reply of the last host tried. */
  function Probe(email: string, net: Network): (r: ProbeResult)
    ensures Domain(email).None? ==> r == Raised([])
    ensures r.attempted <= HostsOf(email, net)
    ensures r.Returned? && !r.valid ==> r.attempted == HostsOf(email, net)
    ensures r.Returned? && r.valid ==>
              |r.attempted| > 0 && net.exchange(|r.attempted| - 1, r.attempted[|r.attempted| - 1]) == Code(ACCEPTED)
  {
    match Domain(email)
    case None => Raised([])
    case Some(domain) =>
      var hosts := GetMxRecords(net.resolve(domain));
      if |hosts| == 0 then Returned(false, []) else TryFrom(hosts, net.exchange, 0)
  }

  /** `verify_email_smtp`, step by step as the script runs it. */
  method VerifyEmailSmtp(email: string, net: Network) returns (r: ProbeResult)
    ensures r == Probe(email, net)
  {
    var domain := Domain(email);
    if domain.None? {
      return Raised([]);
    }
    var hosts := GetMxRecords(net.resolve(domain.value));
    if |hosts| == 0 {
      return Returned(false, []);
    }
    var i := 0;
    while i < |hosts|
      invariant i <= |hosts|
      invariant TryFrom(hosts, net.exchange, i) == TryFrom(hosts, net.exchange, 0)
    {
      match net.exchange(i, hosts[i]) {
        case Code(c) =>
          if c == ACCEPTED {
            return Returned(true, hosts[..i + 1]);
          }
        case CaughtError =>
        case UncaughtError =>
          return Raised(hosts[..i + 1]);
      }
      i := i + 1;
    }
    return Returned(false, hosts);
  }

  /** An address without '@' makes the probe raise before any lookup or connection. */
  lemma ProbeWithoutAt(email: string, net: Network)
    requires '@' !in email
    ensures Probe(email, net) == Raised([])
  {
  }

  /** No MX hosts: the verdict is `False`, and no connection is attempted. */
  lemma ProbeNoHosts(email: string, net: Network)
    requires '@' in email && HostsOf(email, net) == []
    ensures Probe(email, net) == Returned(false, [])
  {
  }

  /** From index `i` on, the first host whose outcome does not move on ends the loop: with
      `True` on a 250, by raising otherwise. */
  lemma {:induction false} TryFromStopsAt(hosts: seq<string>, exchange: (nat, string) -> SmtpOutcome, i: nat, k: nat)
    requires i <= k < |hosts|
    requires forall j :: i <= j < k ==> MovesOn(exchange(j, hosts[j]))
    requires !MovesOn(exchange(k, hosts[k]))
    ensures TryFrom(hosts, exchange, i) ==
            if exchange(k, hosts[k]) == Code(ACCEPTED) then Returned(true, hosts[..k + 1]) else Raised(hosts[..k + 1])
    decreases k - i
  {
    if i < k {
      TryFromStopsAt(hosts, exchange, i + 1, k);
    }
  }

  /** From index `i` on, hosts that all move on lead to `False` after trying every host. */
  lemma {:induction false} TryFromExhausts(hosts: seq<string>, exchange: (nat, string) -> SmtpOutcome, i: nat)
    requires i <= |hosts|
    requires forall j :: i <= j < |hosts| ==> MovesOn(exchange(j, hosts[j]))
    ensures TryFrom(hosts, exchange, i) == Returned(false, hosts)
    decreases |hosts| - i
  {
    if i < |hosts| {
      TryFromExhausts(hosts, exchange, i + 1);
    }
  }

  /** With a domain, the probe is the host loop over that domain's MX list; an empty list
      gives the same `False` with no attempt as the loop does. */
  lemma ProbeIsLoop(email: string, net: Network)
    requires '@' in email
    ensures Probe(email, net) == TryFrom(HostsOf(email, net), net.exchange, 0)
  {
  }

  /** The loop returns `True` iff some host replies 250 and every host before it moved on; the
      hosts tried are then exactly those up to and including that one. */
  lemma TryFromValidIff(hosts: seq<string>, exchange: (nat, string) -> SmtpOutcome)
    ensures TryFrom(hosts, exchange, 0).Returned? && TryFrom(hosts, exchange, 0).valid <==>
            exists k :: 0 <= k < |hosts| && exchange(k, hosts[k]) == Code(ACCEPTED) &&
                        forall j :: 0 <= j < k ==> MovesOn(exchange(j, hosts[j]))
    ensures forall k :: 0 <= k < |hosts| && exchange(k, hosts[k]) == Code(ACCEPTED) &&
                        (forall j :: 0 <= j < k ==> MovesOn(exchange(j, hosts[j]))) ==>
              TryFrom(hosts, exchange, 0) == Returned(true, hosts[..k + 1])
  {
    forall k | 0 <= k < |hosts| && exchange(k, hosts[k]) == Code(ACCEPTED) &&
               (forall j :: 0 <= j < k ==> MovesOn(exchange(j, hosts[j])))
      ensures TryFrom(hosts, exchange, 0) == Returned(true, hosts[..k + 1])
    {
      TryFromStopsAt(hosts, exchange, 0, k);
    }
    var r := TryFrom(hosts, exchange, 0);
    if r.Returned? && r.valid {
      var k := |r.attempted| - 1;
      assert exchange(k, hosts[k]) == Code(ACCEPTED);
    }
  }

  /** The verdict is `True` iff some host replies 250 to RCPT and every host before it moved
      on; the hosts tried are then exactly those up to and including that one. */
  lemma ProbeValidIff(email: string, net: Network)
    ensures var hosts := HostsOf(email, net);
            Probe(email, net).Returned? && Probe(email, net).valid <==>
            exists k :: 0 <= k < |hosts| && net.exchange(k, hosts[k]) == Code(ACCEPTED) &&
                        forall j :: 0 <= j < k ==> MovesOn(net.exchange(j, hosts[j]))
    ensures var hosts := HostsOf(email, net);
            forall k :: 0 <= k < |hosts| && net.exchange(k, hosts[k]) == Code(ACCEPTED) &&
                        (forall j :: 0 <= j < k ==> MovesOn(net.exchange(j, hosts[j]))) ==>
              Probe(email, net) == Returned(true, hosts[..k + 1])
  {
    if '@' in email {
      ProbeIsLoop(email, net);
      TryFromValidIff(HostsOf(email, net), net.exchange);
    }
  }

  /** When every host replies with a code other than 250 or raises a caught error, every host
      is tried and the verdict is `False`. */
  lemma ProbeAllMoveOn(email: string, net: Network)
    requires '@' in email
    requires forall k :: 0 <= k < |HostsOf(email, net)| ==> MovesOn(net.exchange(k, HostsOf(email, net)[k]))
    ensures Probe(email, net) == Returned(false, HostsOf(email, net))
  {
    ProbeIsLoop(email, net);
    TryFromExhausts(HostsOf(email, net), net.exchange, 0);
  }

  /** An address at `example.com`, whose MX hosts are `mx1.example.com` and
      `mx2.example.com`; the first refuses the connection and the second accepts the
      recipient: the verdict is `True`, after trying both hosts in name order. */
  lemma SecondHostAccepts(email: string, net: Network)
    requires Domain(email) == Some("example.com")
    requires net.resolve("example.com") == Answer(["mx2.example.com.", "mx1.example.com."])
    requires net.exchange(0, "mx1.example.com") == CaughtError
    requires net.exchange(1, "mx2.example.com") == Code(250)
    ensures Probe(email, net) == Returned(true, ["mx1.example.com", "mx2.example.com"])
  {
    var hosts := ["mx1.example.com", "mx2.example.com"];
    ExampleHostsOf(email, net);
    ProbeIsLoop(email, net);
    TryFromStopsAt(hosts, net.exchange, 0, 1);
    assert hosts[..2] == hosts;
  }

  lemma ExampleHostsOf(email: string, net: Network)
    requires Domain(email) == Some("example.com")
    requires net.resolve("example.com") == Answer(["mx2.example.com.", "mx1.example.com."])
    ensures HostsOf(email, net) == ["mx1.example.com", "mx2.example.com"]
  {
    ExampleHosts();
  }

  /** The domain of `user@example.com` is `example.com`. */
  lemma ExampleDomain()
    ensures Domain("user@example.com") == Some("example.com")
  {
    DomainIsSecondField("user", "example.com", "");
    assert "user" + "@" + "example.com" + "" == "user@example.com";
  }

  /** The resolver's `mx2.example.com.` and `mx1.example.com.` become, in this order,
      `mx1.example.com` and `mx2.example.com`. */
  lemma ExampleHosts()
    ensures GetMxRecords(Answer(["mx2.example.com.", "mx1.example.com."])) == ["mx1.example.com", "mx2.example.com"]
  {
    var answers := ["mx2.example.com.", "mx1.example.com."];
    var hosts := ["mx1.example.com", "mx2.example.com"];
    ExampleStripped();
    ExampleOrder();
    assert multiset(hosts) == multiset(Stripped(answers));
    GetMxRecordsUnique(answers, hosts);
  }

  lemma ExampleStripped()
    ensures Stripped(["mx2.example.com.", "mx1.example.com."]) == ["mx2.example.com", "mx1.example.com"]
  {
    var mx1, mx2 := "mx1.example.com", "mx2.example.com";
    var answers := ["mx2.example.com.", "mx1.example.com."];
    RStripOne(mx2, '.');
    RStripOne(mx1, '.');
    assert answers[0] == mx2 + "." && answers[1] == mx1 + ".";
  }

  lemma ExampleOrder()
    ensures Sorted(["mx1.example.com", "mx2.example.com"])
  {
    var mx1, mx2 := "mx1.example.com", "mx2.example.com";
    assert mx1[2..][0] == '1' && mx2[2..][0] == '2';
    assert Le(mx1[2..], mx2[2..]);
    assert Le(mx1[1..], mx2[1..]);
    assert Le(mx1, mx2);
  }
}
