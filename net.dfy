/** net.JoinHostPort from Go's `net` package. */
module Net {
  import opened Wrappers
  import opened Strings

  /** net.JoinHostPort: `host:port`, with the host bracketed when it holds a colon (IPv6). */
  function JoinHostPort(host: string, port: string): (r: string)
    ensures |r| == |host| + |port| + (if ':' in host then 3 else 1)
    ensures r[|r| - |port| - 1] == ':' && r[|r| - |port|..] == port
  {
    if ':' in host then "[" + host + "]:" + port else host + ":" + port
  }

  /** A host without a colon is the text before the first colon of the joined address,
      and the port is everything after it. */
  lemma JoinHostPortPlain(host: string, port: string)
    requires ':' !in host
    ensures Index(JoinHostPort(host, port), ":") == Some(|host|)
    ensures JoinHostPort(host, port)[..|host|] == host
    ensures JoinHostPort(host, port)[|host| + 1..] == port
  {
    var r := JoinHostPort(host, port);
    assert OccursAt(r, ":", |host|);
    forall j | 0 <= j < |host| ensures !OccursAt(r, ":", j) {
      assert r[j..j + 1] == [r[j]];
      assert r[j] == host[j];
    }
    FirstOccurrence(r, ":", |host|);
  }

  /** A host with a colon is bracketed: it sits between '[' and ']', and the port follows "]:". */
  lemma JoinHostPortBracketed(host: string, port: string)
    requires ':' in host
    ensures JoinHostPort(host, port)[0] == '['
    ensures JoinHostPort(host, port)[1..|host| + 1] == host
    ensures JoinHostPort(host, port)[|host| + 1..|host| + 3] == "]:"
    ensures JoinHostPort(host, port)[|host| + 3..] == port
  {
  }

  /** When the bracketed host holds no ']' itself, the first ']' is the closing bracket. */
  lemma JoinHostPortClosingBracket(host: string, port: string)
    requires ':' in host && ']' !in host
    ensures Index(JoinHostPort(host, port), "]") == Some(|host| + 1)
  {
    var r := JoinHostPort(host, port);
    assert OccursAt(r, "]", |host| + 1);
    forall j | 0 <= j < |host| + 1 ensures !OccursAt(r, "]", j) {
      assert r[j..j + 1] == [r[j]];
      if j > 0 { assert r[j] == host[j - 1]; }
    }
    FirstOccurrence(r, "]", |host| + 1);
  }
}
