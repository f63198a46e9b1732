/** computeSubnet of metrics.js: which "subnet" a client address is filed under, against the networks it stands for. */
module Subnet {
  import opened Prelude
  import opened Text
  import opened Numerals

  predicate IsGroup(s: string) {
    1 <= |s| <= 3 && AllDigits(Ten, s)
  }

  /** `/^\d{1,3}\.\d{1,3}\.\d{1,3}\.\d{1,3}$/`. */
  predicate IsQuad(s: string) {
    var groups := Split(s, '.');
    |groups| == 4 && forall i :: 0 <= i < 4 ==> IsGroup(groups[i])
  }

  predicate IsF(c: char) {
    c == 'f' || c == 'F'
  }

  /** `/^::ffff:/i`. */
  predicate Mapped(ip: string) {
    && |ip| >= 7 && ip[0] == ip[1] == ip[6] == ':'
    && IsF(ip[2]) && IsF(ip[3]) && IsF(ip[4]) && IsF(ip[5])
  }

  function Strip(ip: string): string {
    if Mapped(ip) then ip[7..] else ip
  }

  function ComputeSubnet(ip: string): string {
    var stripped := Strip(ip);
    if ip == "" then "0.0.0.0/24"
    else if IsQuad(stripped) then Join(Split(stripped, '.')[..3], ".") + ".0/24"
    else if |Split(stripped, ':')| >= 4 then Join(Split(stripped, ':')[..4], ":") + "::/64"
    else stripped
  }

  // ----- Networks

  predicate HexGroup(s: string) {
    1 <= |s| <= 4 && AllDigits(Sixteen, s)
  }

  predicate HexGroups(parts: seq<string>) {
    forall i :: 0 <= i < |parts| ==> HexGroup(parts[i])
  }

  function Number(base: Base, s: string): nat {
    if ReadDigits(base, s).Some? then ReadDigits(base, s).value else 0
  }

  function Numbers(base: Base, parts: seq<string>): (ns: seq<nat>)
    ensures |ns| == |parts|
    ensures forall i :: 0 <= i < |ns| ==> ns[i] == Number(base, parts[i])
  {
    seq(|parts|, i requires 0 <= i < |parts| => Number(base, parts[i]))
  }

  function Zeros(n: nat): (zs: seq<nat>)
    ensures |zs| == n && forall i :: 0 <= i < n ==> zs[i] == 0
  {
    seq(n, _ => 0)
  }

  function FirstEmpty(parts: seq<string>): (e: nat)
    ensures e <= |parts| && (forall i :: 0 <= i < e ==> parts[i] != "") && (e < |parts| ==> parts[e] == "")
  {
    if parts == [] || parts[0] == "" then 0 else 1 + FirstEmpty(parts[1..])
  }

  /** What follows a `::` whose first empty part is at `e`; None when that is no `::` after all. */
  function AfterGap(parts: seq<string>, e: nat): Option<seq<string>>
    requires e < |parts|
  {
    var from := if e == 0 then 2 else e + 1;
    if |parts| <= from || (e == 0 && parts[1] != "") then None
    else if parts[from..] == [""] then Some([]) else Some(parts[from..])
  }

  /** The eight groups of an IPv6 address given by its colon-separated parts: a `::` stands for one or more zeros. */
  function Groups(parts: seq<string>): Option<seq<nat>> {
    var e := FirstEmpty(parts);
    if e == |parts| then
      if |parts| == 8 && HexGroups(parts) then Some(Numbers(Sixteen, parts)) else None
    else
      var left, right := parts[..e], AfterGap(parts, e);
      if right.None? || !HexGroups(left) || !HexGroups(right.value) || e + |right.value| > 7 then None
      else Some(Numbers(Sixteen, left) + Zeros(8 - e - |right.value|) + Numbers(Sixteen, right.value))
  }

  /** An IPv4 /24 or an IPv6 /64. */
  datatype Network = Net24(groups: seq<nat>) | Net64(groups: seq<nat>)

  /** The network of an address; None for text that is neither a dotted quad, IPv4-mapped or not, nor an IPv6
      address. */
  function NetworkOf(ip: string): Option<Network> {
    if IsQuad(Strip(ip)) then Some(Net24(Numbers(Ten, Split(Strip(ip), '.')[..3])))
    else if Groups(Split(ip, ':')).Some? then
      GroupsAreEight(Split(ip, ':'));
      Some(Net64(Groups(Split(ip, ':')).value[..4]))
    else None
  }

  lemma GroupsAreEight(parts: seq<string>)
    ensures Groups(parts).Some? ==> |Groups(parts).value| == 8
  {
    hide HexGroups;
  }

  function Spell(base: Base, ns: seq<nat>): (ss: seq<string>)
    ensures |ss| == |ns| && forall i :: 0 <= i < |ss| ==> ss[i] == Digits(base, ns[i])
  {
    seq(|ns|, i requires 0 <= i < |ns| => Digits(base, ns[i]))
  }

  /** The prefix as it is usually written. */
  function Name(n: Network): string {
    match n
    case Net24(groups) => Join(Spell(Ten, groups), ".") + ".0/24"
    case Net64(groups) => Join(Spell(Sixteen, groups), ":") + "::/64"
  }

  predicate Valid(n: Network) {
    match n
    case Net24(groups) => |groups| == 3 && forall i :: 0 <= i < 3 ==> groups[i] < 1000
    case Net64(groups) => |groups| == 4 && forall i :: 0 <= i < 4 ==> groups[i] < 0x1_0000
  }

  /** The text in front spells the network: three dotted groups, or four colon-separated parts, each in its usual
      form. */
  predicate Spelled(ip: string) {
    match NetworkOf(ip)
    case None => false
    case Some(Net24(groups)) => Split(Strip(ip), '.')[..3] == Spell(Ten, groups)
    case Some(Net64(groups)) =>
      |Split(Strip(ip), ':')| >= 4 && Split(Strip(ip), ':')[..4] == Spell(Sixteen, groups)
  }
}
