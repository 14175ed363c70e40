/**
 * City detection for the public listing: the client address is taken from
 * `X-Forwarded-For` when the header is sent (its first entry, trimmed), else
 * from the connection; a loopback address is replaced by a fixed public one.
 * The geolocation lookup is a parameter.
 */
module LocationService {
  import opened Wrappers
  import opened Text

  /** The address local development requests are looked up as. */
  const Substitute := "103.48.198.141"

  predicate IsLoopback(ip: string) {
    ip == "127.0.0.1" || ip == "::1"
  }

  /** What the geolocation lookup returns for an address; the city may be unknown. */
  datatype Position = Position(cityName: Option<string>)

  /** `header('X-Forwarded-For') ?? ip()`: the header wins whenever it is sent. */
  function ClientAddress(forwarded: Option<string>, remote: string): string {
    forwarded.GetOr(remote)
  }

  /** The address rewrite: the first comma-separated entry, trimmed, with loopback replaced. */
  function Normalize(raw: string): (ip: string)
    ensures ',' !in ip
    ensures ip == [] || (!IsBlank(ip[0]) && !IsBlank(ip[|ip| - 1]))
    ensures !IsLoopback(ip)
    ensures IsLoopback(Trim(BeforeFirst(raw, ','))) ==> ip == Substitute
    ensures !IsLoopback(Trim(BeforeFirst(raw, ','))) ==> ip == Trim(BeforeFirst(raw, ','))
  {
    var first := if ',' in raw then BeforeFirst(raw, ',') else raw;
    var trimmed := Trim(first);
    TrimShape(first);
    NoCommaInPiece(first, trimmed);
    if IsLoopback(trimmed) then Substitute else trimmed
  }

  /** A piece of a string without commas has none either. */
  lemma NoCommaInPiece(s: string, r: string)
    requires ',' !in s
    requires exists i :: OccursAt(s, r, i)
    ensures ',' !in r
  {
    var i :| OccursAt(s, r, i);
    assert forall j :: 0 <= j < |r| ==> r[j] == s[i + j];
  }

  /** An address already normalised is left as it is: normalising twice equals normalising once. */
  lemma NormalizeIdempotent(raw: string)
    ensures Normalize(Normalize(raw)) == Normalize(raw)
  {
    var ip := Normalize(raw);
    TrimFixesTrimmed(ip);
  }

  /** Only the first entry of a forwarded chain matters: the proxies appended after it are ignored. */
  lemma FirstEntryWins(client: string, rest: string)
    requires ',' !in client
    ensures Normalize(client + "," + rest) == Normalize(client)
  {
    var chain := client + "," + rest;
    assert chain[|client|] == ',';
    BeforeFirstConcat(client, rest);
  }

  lemma {:induction false} BeforeFirstConcat(client: string, rest: string)
    requires ',' !in client
    ensures BeforeFirst(client + "," + rest, ',') == client
  {
    if client != [] {
      assert (client + "," + rest)[1..] == client[1..] + "," + rest;
      BeforeFirstConcat(client[1..], rest);
    }
  }

  /**
   * `detectCity`: the city of the normalised address, or None when the lookup
   * finds no position or a position without a city.
   */
  function DetectCity(forwarded: Option<string>, remote: string, lookup: string -> Option<Position>): (city: Option<string>)
    ensures var found := lookup(Normalize(ClientAddress(forwarded, remote)));
      && (city.Some? <==> found.Some? && found.value.cityName.Some?)
      && (city.Some? ==> city == found.value.cityName)
  {
    var found := lookup(Normalize(ClientAddress(forwarded, remote)));
    if found.Some? then found.value.cityName else None
  }

  /** The substitute address is itself normal. */
  lemma SubstituteIsNormal()
    ensures Normalize(Substitute) == Substitute
  {
    assert ',' !in Substitute;
    TrimFixesTrimmed(Substitute);
  }

  /**
   * A sent `X-Forwarded-For` header decides the address looked up, whatever
   * the connection address; without it the connection address is looked up
   * as if it had been sent as the header.
   */
  lemma HeaderWins(header: string, remote1: string, remote2: string, lookup: string -> Option<Position>)
    ensures DetectCity(Some(header), remote1, lookup) == DetectCity(Some(header), remote2, lookup)
    ensures DetectCity(None, remote1, lookup) == DetectCity(Some(remote1), remote2, lookup)
  {
    SameAddressSameCity(Some(header), remote1, Some(header), remote2, lookup);
    SameAddressSameCity(None, remote1, Some(remote1), remote2, lookup);
  }

  /** The city depends on the request only through the client address. */
  lemma SameAddressSameCity(f1: Option<string>, r1: string, f2: Option<string>, r2: string, lookup: string -> Option<Position>)
    requires ClientAddress(f1, r1) == ClientAddress(f2, r2)
    ensures DetectCity(f1, r1, lookup) == DetectCity(f2, r2, lookup)
  {
  }

  /** A loopback connection without the header is looked up as the substitute address. */
  lemma LoopbackLookedUpAsSubstitute(remote: string, lookup: string -> Option<Position>)
    requires IsLoopback(remote)
    ensures DetectCity(None, remote, lookup) == DetectCity(None, Substitute, lookup)
  {
    LoopbackIsSubstituted(remote);
    SubstituteIsNormal();
  }

  lemma LoopbackIsSubstituted(remote: string)
    requires IsLoopback(remote)
    ensures Normalize(remote) == Substitute
  {
    assert ',' !in remote;
    TrimFixesTrimmed(remote);
  }
}
