/** The five tables of a DHCP scope on the wire.
    encodeDHCPStaticRoutes, encodeDHCPVendorInfo, encodeDHCPGenericOptions, encodeDHCPExclusions
    and encodeDHCPReservedLeases of internal/client/dhcp.go */
module DhcpTables {
  import opened Text
  import opened WireTable

  datatype StaticRoute = StaticRoute(destination: string, subnetMask: string, router: string)
  datatype VendorInfo = VendorInfo(identifier: string, information: string)
  datatype GenericOption = GenericOption(code: Int64, value: string)
  datatype Exclusion = Exclusion(startingAddress: string, endingAddress: string)
  datatype Lease = Lease(hostName: string, hardwareAddress: string, address: string, comments: string)

  // ---------------------------------------------------------------- the five tables

  function RouteRow(): StaticRoute -> Row {
    (r: StaticRoute) => [r.destination, r.subnetMask, r.router]
  }

  function RouteOf(): Row -> Option<StaticRoute> {
    (c: Row) => if |c| == 3 then Some(StaticRoute(c[0], c[1], c[2])) else None
  }

  function VendorRow(): VendorInfo -> Row {
    (v: VendorInfo) => [v.identifier, v.information]
  }

  function VendorOf(): Row -> Option<VendorInfo> {
    (c: Row) => if |c| == 2 then Some(VendorInfo(c[0], c[1])) else None
  }

  function OptionRow(): GenericOption -> Row {
    (o: GenericOption) => [Itoa(o.code), o.value]
  }

  function OptionOf(): Row -> Option<GenericOption> {
    (c: Row) =>
      if |c| != 2 then None
      else match ParseInt64(c[0])
        case None => None
        case Some(code) => Some(GenericOption(code, c[1]))
  }

  function ExclusionRow(): Exclusion -> Row {
    (e: Exclusion) => [e.startingAddress, e.endingAddress]
  }

  function ExclusionOf(): Row -> Option<Exclusion> {
    (c: Row) => if |c| == 2 then Some(Exclusion(c[0], c[1])) else None
  }

  function LeaseRow(): Lease -> Row {
    (l: Lease) => [l.hostName, l.hardwareAddress, l.address, l.comments]
  }

  function LeaseOf(): Row -> Option<Lease> {
    (c: Row) => if |c| == 4 then Some(Lease(c[0], c[1], c[2], c[3])) else None
  }

  predicate CleanRoute(r: StaticRoute) {
    '|' !in r.destination && '|' !in r.subnetMask && '|' !in r.router
  }

  predicate CleanVendor(v: VendorInfo) {
    '|' !in v.identifier && '|' !in v.information
  }

  predicate CleanOption(o: GenericOption) {
    '|' !in o.value
  }

  predicate CleanExclusion(e: Exclusion) {
    '|' !in e.startingAddress && '|' !in e.endingAddress
  }

  predicate CleanLease(l: Lease) {
    '|' !in l.hostName && '|' !in l.hardwareAddress && '|' !in l.address && '|' !in l.comments
  }

  lemma RoutesRoundTrip(xs: seq<StaticRoute>)
    requires forall i :: 0 <= i < |xs| ==> CleanRoute(xs[i])
    ensures DecodeTable(EncodeTable(xs, RouteRow()), 3, RouteOf()) == Some(xs)
    ensures EncodeTable(xs, RouteRow()) == "" <==> xs == []
  {
    forall i | 0 <= i < |xs| ensures Readable(xs[i], RouteRow(), RouteOf(), 3) { assert CleanRoute(xs[i]); }
    TableRoundTrip(xs, RouteRow(), RouteOf(), 3);
  }

  lemma VendorInfoRoundTrip(xs: seq<VendorInfo>)
    requires forall i :: 0 <= i < |xs| ==> CleanVendor(xs[i])
    ensures DecodeTable(EncodeTable(xs, VendorRow()), 2, VendorOf()) == Some(xs)
    ensures EncodeTable(xs, VendorRow()) == "" <==> xs == []
  {
    forall i | 0 <= i < |xs| ensures Readable(xs[i], VendorRow(), VendorOf(), 2) { assert CleanVendor(xs[i]); }
    TableRoundTrip(xs, VendorRow(), VendorOf(), 2);
  }

  lemma OptionsRoundTrip(xs: seq<GenericOption>)
    requires forall i :: 0 <= i < |xs| ==> CleanOption(xs[i])
    ensures DecodeTable(EncodeTable(xs, OptionRow()), 2, OptionOf()) == Some(xs)
    ensures EncodeTable(xs, OptionRow()) == "" <==> xs == []
  {
    forall i | 0 <= i < |xs| ensures Readable(xs[i], OptionRow(), OptionOf(), 2) {
      assert CleanOption(xs[i]);
      ParseItoa(xs[i].code);
      var printed := Itoa(xs[i].code);
      assert forall c :: c in printed ==> c != '|';
    }
    TableRoundTrip(xs, OptionRow(), OptionOf(), 2);
  }

  lemma ExclusionsRoundTrip(xs: seq<Exclusion>)
    requires forall i :: 0 <= i < |xs| ==> CleanExclusion(xs[i])
    ensures DecodeTable(EncodeTable(xs, ExclusionRow()), 2, ExclusionOf()) == Some(xs)
    ensures EncodeTable(xs, ExclusionRow()) == "" <==> xs == []
  {
    forall i | 0 <= i < |xs| ensures Readable(xs[i], ExclusionRow(), ExclusionOf(), 2) { assert CleanExclusion(xs[i]); }
    TableRoundTrip(xs, ExclusionRow(), ExclusionOf(), 2);
  }

  lemma LeasesRoundTrip(xs: seq<Lease>)
    requires forall i :: 0 <= i < |xs| ==> CleanLease(xs[i])
    ensures DecodeTable(EncodeTable(xs, LeaseRow()), 4, LeaseOf()) == Some(xs)
    ensures EncodeTable(xs, LeaseRow()) == "" <==> xs == []
  {
    forall i | 0 <= i < |xs| ensures Readable(xs[i], LeaseRow(), LeaseOf(), 4) { assert CleanLease(xs[i]); }
    TableRoundTrip(xs, LeaseRow(), LeaseOf(), 4);
  }

  /** A pipe inside a cell shifts the cells behind it: two tables share a text. */
  lemma PipeMakesRows(a: string, b: string, c: string, d: string)
    ensures EncodeTable([VendorInfo(a, b + "|" + c + "|" + d)], VendorRow())
         == EncodeTable([VendorInfo(a, b), VendorInfo(c, d)], VendorRow())
  {
    var inner := b + "|" + c + "|" + d;
    assert Rows([VendorInfo(a, inner)], VendorRow()) == [[a, inner]];
    assert Rows([VendorInfo(a, b), VendorInfo(c, d)], VendorRow()) == [[a, b], [c, d]];
    assert [[a, b], [c, d]][1..] == [[c, d]] && [[c, d]][1..] == [] && [[a, inner]][1..] == [];
    assert Cells([[a, inner]]) == [a, inner] + Cells([]) == [a, inner];
    assert Cells([[a, b], [c, d]]) == [a, b] + ([c, d] + Cells([])) == [a, b, c, d];
    assert [a, b, c, d][1..] == [b, c, d] && [b, c, d][1..] == [c, d] && [c, d][1..] == [d];
    assert [a, inner][1..] == [inner];
    assert Join([c, d], "|") == c + "|" + d;
    assert Join([b, c, d], "|") == b + "|" + (c + "|" + d) == inner;
    assert Join([a, b, c, d], "|") == a + "|" + inner == Join([a, inner], "|");
  }
}
