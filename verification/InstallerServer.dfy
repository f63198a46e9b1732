/** The request handler of installers.js: which requests are answered with Content Information, and what is filed in the
    ledger.  The static file layer behind it is a parameter. */
module InstallerServer {
  import opened Prelude
  import opened Bytes
  import opened ContentInfo
  import opened PeerDist
  import opened Sidecar
  import opened Subnet
  import Ledger
  import Metrics

  datatype Verb = Get | Head | OtherVerb

  /** The Range header: absent or empty, one range of bytes, or anything else. */
  datatype Range = Whole | Slice(first: nat, last: nat) | OtherRange

  /** The path is as it was sent, not yet decoded. */
  datatype Request = Request(verb: Verb, path: string, ip: string, ua: Option<string>, acceptEncoding: string,
                             p2pHeader: string, range: Range)

  /** `encoded` is Content-Encoding: peerdist; `announced` is the ContentLength of X-P2P-PeerDist. */
  datatype Reply = Reply(status: nat, encoded: bool, announced: Option<nat>, contentLength: nat, body: Bytes)

  /** express.static followed by the 404 catch-all; it gets the content of the file that the decoded path names. */
  type StaticLayer = (Request, Option<Bytes>) -> Reply

  /** `res.status(404).send('Not found')`, which sends no body in answer to HEAD. */
  function NotFound(verb: Verb): Reply {
    Reply(404, false, None, 9, if verb == Head then [] else [78, 111, 116, 32, 102, 111, 117, 110, 100])
  }

  datatype File = File(content: Bytes, mtimeMs: real)

  /** Sidecars as JSON text. */
  datatype Codec = Codec(encode: Tree -> Bytes, parse: Bytes -> Option<Tree>)

  /** What does not change while the server runs. `decode` is decodeURIComponent followed by path normalisation: None
      for a malformed escape. `errorPage` is what Express answers to an exception. */
  datatype Site = Site(h: Bytes -> Digest, layer: StaticLayer, decode: string -> Option<string>, codec: Codec,
                       secret: Bytes, errorPage: Bytes)

  const SUFFIX := ".peerdist"

  /** The file at a decoded path, together with its sidecar. */
  function DiskAt(site: Site, files: map<string, File>, p: string): Option<Disk> {
    if p !in files then None else
      var sidecar := if p + SUFFIX in files then site.codec.parse(files[p + SUFFIX].content) else None;
      Some(Disk(files[p].content, files[p].mtimeMs, sidecar))
  }

  function ToLower(c: char): char {
    if 'A' <= c <= 'Z' then c - 'A' + 'a' else c
  }

  /** `s.toLowerCase().includes(word)` for a lower-case ASCII word. */
  predicate Mentions(s: string, word: string) {
    exists i :: 0 <= i <= |s| - |word| && MentionsAt(s, word, i)
  }

  predicate MentionsAt(s: string, word: string, i: nat)
    requires i + |word| <= |s|
  {
    forall j :: 0 <= j < |word| ==> ToLower(s[i + j]) == word[j]
  }

  predicate Negotiates(req: Request) {
    Mentions(req.acceptEncoding, "peerdist") || req.p2pHeader != ""
  }

  predicate EndsWith(s: string, suffix: string) {
    |s| >= |suffix| && s[|s| - |suffix|..] == suffix
  }

  /** The guard for sidecars; the server applies it to the path as it was sent. */
  predicate Private(path: string) {
    EndsWith(path, SUFFIX) || EndsWith(path, SUFFIX + ".tmp")
  }

  /** `p.includes('..')`, which names like `a..b` hold as well. */
  predicate HoldsTwoDots(p: string) {
    exists i :: 0 <= i < |p| - 1 && p[i] == p[i + 1] == '.'
  }

  /** The guards on the request alone. */
  predicate Asks(enabled: bool, req: Request) {
    enabled && (req.verb == Get || req.verb == Head) && req.range == Whole && Negotiates(req)
  }

  /** Those, the one on the decoded path, and the three on the file. */
  predicate Qualifies(enabled: bool, req: Request, p: string, disk: Option<Disk>) {
    Asks(enabled, req) && !HoldsTwoDots(p) && disk.Some? && 0 < |disk.value.content| <= MAX_HASHABLE_SIZE
  }

  /** The Content Information reply; None is a fall-through to the static layer. */
  function Encoded(h: Bytes -> Digest, enabled: bool, secret: Bytes, req: Request, p: string, disk: Option<Disk>)
    : Option<Reply>
  {
    if !Qualifies(enabled, req, p, disk) then None else
      match Served(h, disk.value)
      case None => None
      case Some(tree) =>
        if !Encodable(tree, secret) then None else
          var blob := Print(InfoOf(h, tree, secret));
          Some(Reply(200, true, Some(|disk.value.content|), |blob|, if req.verb == Head then [] else blob))
  }

  function ContentOf(disk: Option<Disk>): Option<Bytes> {
    if disk.None? then None else Some(disk.value.content)
  }

  /** The reply once the path is decoded. */
  function Dispatch(site: Site, enabled: bool, req: Request, p: string, disk: Option<Disk>): Reply {
    var encoded := Encoded(site.h, enabled, site.secret, req, p, disk);
    if encoded.Some? then encoded.value else site.layer(req, ContentOf(disk))
  }

  /** decodeURIComponent throws outside the try block of the negotiation. */
  function Failure(site: Site, verb: Verb): Reply {
    Reply(500, false, None, |site.errorPage|, if verb == Head then [] else site.errorPage)
  }

  function Answer(site: Site, enabled: bool, req: Request, files: map<string, File>): Reply {
    if Private(req.path) then NotFound(req.verb)
    else match site.decode(req.path)
      case None => if Asks(enabled, req) then Failure(site, req.verb) else site.layer(req, None)
      case Some(p) => Dispatch(site, enabled, req, p, DiskAt(site, files, p))
  }

  /** The size of the file that the request names; 0 when it names none, or when the same test on the path stops it. */
  function SizeOf(site: Site, req: Request, files: map<string, File>): nat {
    var p := site.decode(req.path);
    if p.Some? && !HoldsTwoDots(p.value) && p.value in files then |files[p.value].content| else 0
  }

  /** The files after a negotiation: a lookup stores the sidecar it had to compute, if it can. */
  function Stored(site: Site, files: map<string, File>, p: string, writable: bool, stamp: real): map<string, File> {
    var disk := DiskAt(site, files, p);
    if disk.None? then files else
      var tree := Served(site.h, disk.value);
      if writable && ReadSidecar(disk.value).None? && tree.Some?
      then files[p + SUFFIX := File(site.codec.encode(tree.value), stamp)] else files
  }

  function FilesAfter(site: Site, enabled: bool, req: Request, files: map<string, File>, writable: bool, stamp: real)
    : map<string, File>
  {
    var p := site.decode(req.path);
    if Private(req.path) || p.None? || !Qualifies(enabled, req, p.value, DiskAt(site, files, p.value)) then files
    else Stored(site, files, p.value, writable, stamp)
  }

  /** The row of the finish hook; None when it files nothing. */
  function RowOf(req: Request, size: nat, reply: Reply, now: nat, durationMs: nat): Option<Ledger.Row> {
    if req.verb == OtherVerb || (size == 0 && |reply.body| < 200) then None else
      var ip := if req.ip == "" then "0.0.0.0" else req.ip;
      Some(Ledger.Row(now, ip, ComputeSubnet(ip), req.ua, req.path, size, |reply.body|, Negotiates(req), reply.status,
                      durationMs))
  }

  function Filed(rows: seq<Ledger.Row>, row: Option<Ledger.Row>): seq<Ledger.Row> {
    if row.None? then rows else rows + [row.value]
  }

  /** The installer root and the ledger. */
  class Server {
    const site: Site
    const ledger: Metrics.MetricsDb
    var files: map<string, File>

    constructor (site: Site, files: map<string, File>, ledger: Metrics.MetricsDb)
      ensures this.site == site && this.files == files && this.ledger == ledger
    {
      this.site, this.files, this.ledger := site, files, ledger;
    }

    /** The middleware chain in order: sidecars are private, the byte counter, the PeerDist negotiation, static
        files. */
    method Handle(req: Request, enabled: bool, writable: bool, stamp: real, now: nat, durationMs: nat)
      returns (reply: Reply)
      modifies this, ledger
      ensures reply == Answer(site, enabled, req, old(files))
      ensures files == FilesAfter(site, enabled, req, old(files), writable, stamp)
      ensures ledger.summary == old(ledger.summary)
      ensures ledger.raw == if Private(req.path) then old(ledger.raw) else
        Filed(old(ledger.raw), RowOf(req, SizeOf(site, req, old(files)), reply, now, durationMs))
    {
      hide Private, Asks, HoldsTwoDots, Served, RowOf, ReadSidecar;
      if Private(req.path) {
        return NotFound(req.verb);
      }
      var size := SizeOf(site, req, files);
      var target := site.decode(req.path);
      if target.None? {
        reply := if Asks(enabled, req) then Failure(site, req.verb) else site.layer(req, None);
      } else {
        var content := ContentOf(DiskAt(site, files, target.value));
        var encoded := Negotiate(req, target.value, enabled, writable, stamp);
        reply := if encoded.Some? then encoded.value else site.layer(req, content);
      }
      var row := RowOf(req, size, reply, now, durationMs);
      if row.Some? {
        ledger.RecordInstallerRequest(row.value);
      }
    }

    method Negotiate(req: Request, p: string, enabled: bool, writable: bool, stamp: real) returns (reply: Option<Reply>)
      modifies `files
      ensures reply == Encoded(site.h, enabled, site.secret, req, p, DiskAt(site, old(files), p))
      ensures files == if Qualifies(enabled, req, p, DiskAt(site, old(files), p))
                       then Stored(site, old(files), p, writable, stamp) else old(files)
    {
      hide Negotiates, HoldsTwoDots, Print, InfoOf, Encodable, TreeOf, DiskAt;
      if !enabled {
        return None;
      }
      if req.verb != Get && req.verb != Head {
        return None;
      }
      if req.range != Whole {
        return None;
      }
      if !Negotiates(req) {
        return None;
      }
      if HoldsTwoDots(p) {
        return None;
      }
      var found := DiskAt(site, files, p);
      if found.None? {
        return None;
      }
      var disk := found.value;
      if |disk.content| == 0 || |disk.content| > MAX_HASHABLE_SIZE {
        return None;
      }
      var hashes := LoadOrCompute(p, disk, writable, stamp);
      if hashes.None? {
        return None;
      }
      var blob := EncodeContentInformation(site.h, hashes.value, site.secret);
      if blob.Err? {
        return None;
      }
      reply := Some(Reply(200, true, Some(|disk.content|), |blob.value|, if req.verb == Head then [] else blob.value));
    }

    /** loadOrCompute on the files of the site. */
    method LoadOrCompute(p: string, disk: Disk, writable: bool, stamp: real) returns (tree: Option<Tree>)
      requires DiskAt(site, files, p) == Some(disk)
      modifies `files
      ensures tree == Served(site.h, disk) && files == Stored(site, old(files), p, writable, stamp)
    {
      hide DiskAt, TreeOf;
      var file := new Installer(site.h, disk.content, disk.mtimeMs, disk.sidecar);
      var hit := file.ReadStored();
      var hashes := file.LoadOrCompute(writable);
      if hashes.Err? {
        return None;
      }
      if hit.None? && writable {
        files := files[p + SUFFIX := File(site.codec.encode(hashes.value), stamp)];
      }
      tree := Some(hashes.value);
    }
  }
}
