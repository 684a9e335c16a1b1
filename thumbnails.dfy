/**
 * The thumbnail service request of `FilesModel.get_thumb_path`
 * (src/windows/models/files_model.py:292-315): the URL asked of the local
 * thumbnail server, and what the reply turns into. The HTTP call itself is a
 * function parameter `fetch` from URL to reply.
 */
module Thumbnails {
  import opened Optional
  import opened Text
  import opened Decimal
  import opened FileTable

  /** The address of the application's thumbnail server. */
  datatype Server = Server(host: string, port: nat)

  /** What the HTTP `get` gives back: whether the status is OK, and the body. */
  datatype Reply = Reply(ok: bool, text: string)

  /** Everything the URL encodes. */
  datatype ThumbRequest = ThumbRequest(server: Server, fileId: string, frame: int, clearCache: bool)

  /** A file id as `%s` writes it: a missing id prints as `None`. */
  function IdText(id: Option<string>): string {
    match id
    case None => "None"
    case Some(s) => s
  }

  /** The frame to thumbnail: 1, or the frame of the file's start offset. */
  function ThumbFrame(e: FileEntry): int {
    match e.startFrame
    case None => 1
    case Some(f) => f
  }

  /** `"http://%s:%s/thumbnails/%s/%s/path/%s"`, the last part `no-cache/` when the cache is to be cleared. */
  function ThumbUrl(q: ThumbRequest): string {
    "http://" + q.server.host + ":" + NatToString(q.server.port) + "/thumbnails/" + q.fileId + "/"
      + IntToString(q.frame) + "/path/" + (if q.clearCache then "no-cache/" else "")
  }

  /** The thumbnail path a reply yields: its text when OK, '' otherwise. */
  function ThumbPath(reply: Reply): string {
    if reply.ok then reply.text else ""
  }

  /** `get_thumb_path(file_id, frame, clear_cache)` against `fetch`. */
  function GetThumbPath(server: Server, fileId: string, frame: int, clearCache: bool, fetch: string -> Reply): string {
    ThumbPath(fetch(ThumbUrl(ThumbRequest(server, fileId, frame, clearCache))))
  }

  /** A request whose parts keep their separators out, so the URL determines them. */
  predicate Routable(q: ThumbRequest) {
    '/' !in q.server.host && ':' !in q.server.host && '/' !in q.fileId
  }

  /** The inverse of `ThumbUrl`: reads a thumbnail URL back into the request's parts. */
  function ParseThumbUrl(url: string): Option<ThumbRequest> {
    var parts := Split(url, '/');
    if |parts| != 8 && |parts| != 9 then None
    else if parts[0] != "http:" || parts[1] != "" || parts[3] != "thumbnails" || parts[6] != "path" then None
    else if |parts| == 8 && parts[7] != "" then None
    else if |parts| == 9 && (parts[7] != "no-cache" || parts[8] != "") then None
    else
      var address := Split(parts[2], ':');
      if |address| != 2 || address[1] == [] || !AllDigits(address[1]) then None
      else match ParseInt(parts[5])
        case None => None
        case Some(frame) =>
          Some(ThumbRequest(Server(address[0], ParseNat(address[1])), parts[4], frame, |parts| == 9))
  }

  lemma NoSlashInDigits(s: string)
    requires AllDigits(s)
    ensures '/' !in s && ':' !in s
  {
    forall k | 0 <= k < |s| ensures s[k] != '/' && s[k] != ':' {
      assert IsDigit(s[k]);
    }
  }

  lemma NoSlashInInt(i: int)
    ensures '/' !in IntToString(i)
  {
    if i < 0 {
      NoSlashInDigits(NatToString(-i));
      assert IntToString(i) == ['-'] + NatToString(-i);
    } else {
      NoSlashInDigits(NatToString(i));
    }
  }

  lemma JoinWithCons(x: string, rest: seq<string>, sep: char)
    requires |rest| >= 1
    ensures JoinWith([x] + rest, sep) == x + [sep] + JoinWith(rest, sep)
  {
    assert ([x] + rest)[1..] == rest;
  }

  /** The URL is the parts of the request joined by '/'. */
  lemma ThumbUrlPieces(q: ThumbRequest)
    ensures ThumbUrl(q) == JoinWith(UrlPieces(q), '/')
  {
    var tail: seq<string> := if q.clearCache then ["no-cache", ""] else [""];
    var t := if q.clearCache then "no-cache/" else "";
    if q.clearCache {
      JoinWithCons("no-cache", [""], '/');
    }
    var address := q.server.host + ":" + NatToString(q.server.port);
    var frame := IntToString(q.frame);
    var s1 := "path" + "/" + t;
    JoinWithCons("path", tail, '/');
    var s2 := frame + "/" + s1;
    JoinWithCons(frame, Cons("path", tail), '/');
    var s3 := q.fileId + "/" + s2;
    JoinWithCons(q.fileId, Cons(frame, Cons("path", tail)), '/');
    var s4 := "thumbnails" + "/" + s3;
    JoinWithCons("thumbnails", Cons(q.fileId, Cons(frame, Cons("path", tail))), '/');
    var s5 := address + "/" + s4;
    JoinWithCons(address, Cons("thumbnails", Cons(q.fileId, Cons(frame, Cons("path", tail)))), '/');
    var s6 := "" + "/" + s5;
    JoinWithCons("", Cons(address, Cons("thumbnails", Cons(q.fileId, Cons(frame, Cons("path", tail))))), '/');
    JoinWithCons("http:", Cons("", Cons(address, Cons("thumbnails", Cons(q.fileId, Cons(frame, Cons("path", tail)))))), '/');
    assert JoinWith(UrlPieces(q), '/') == "http:" + "/" + s6;
    UrlSpelling(q.server.host, NatToString(q.server.port), q.fileId, frame, t);
  }

  lemma UrlSpelling(host: string, port: string, id: string, frame: string, t: string)
    ensures "http://" + host + ":" + port + "/thumbnails/" + id + "/" + frame + "/path/" + t
      == "http:" + "/" + ("" + "/" + ((host + ":" + port) + "/" + ("thumbnails" + "/" + (id + "/" + (frame + "/" + ("path" + "/" + t))))))
  {
  }

  function Cons(x: string, rest: seq<string>): seq<string> {
    [x] + rest
  }

  function UrlPieces(q: ThumbRequest): seq<string> {
    var tail: seq<string> := if q.clearCache then ["no-cache", ""] else [""];
    Cons("http:", Cons("", Cons(q.server.host + ":" + NatToString(q.server.port), Cons("thumbnails",
      Cons(q.fileId, Cons(IntToString(q.frame), Cons("path", tail)))))))
  }

  lemma UrlPiecesAt(q: ThumbRequest)
    ensures var pieces := UrlPieces(q);
      && |pieces| == (if q.clearCache then 9 else 8)
      && pieces[0] == "http:" && pieces[1] == "" && pieces[3] == "thumbnails" && pieces[6] == "path"
      && pieces[2] == q.server.host + ":" + NatToString(q.server.port)
      && pieces[4] == q.fileId && pieces[5] == IntToString(q.frame)
      && pieces[7..] == (if q.clearCache then ["no-cache", ""] else [""])
  {
  }

  lemma SplitUrl(q: ThumbRequest)
    requires Routable(q)
    ensures Split(ThumbUrl(q), '/') == UrlPieces(q)
  {
    NoSlashInPieces(q);
    ThumbUrlPieces(q);
    SplitJoinWith(UrlPieces(q), '/');
  }

  /** Every piece of a routable request's URL is free of '/'. */
  lemma NoSlashInPieces(q: ThumbRequest)
    requires Routable(q)
    ensures forall k :: 0 <= k < |UrlPieces(q)| ==> '/' !in UrlPieces(q)[k]
  {
    var port := NatToString(q.server.port);
    var frame := IntToString(q.frame);
    NoSlashInDigits(port);
    NoSlashInInt(q.frame);
    var address := q.server.host + ":" + port;
    assert '/' !in address by {
      assert address == q.server.host + [':'] + port;
    }
    var tail: seq<string> := if q.clearCache then ["no-cache", ""] else [""];
    var head := ["http:", "", address, "thumbnails", q.fileId, frame, "path"];
    assert UrlPieces(q) == head + tail;
    assert forall k :: 0 <= k < |head| ==> '/' !in head[k];
    assert forall k :: 0 <= k < |tail| ==> '/' !in tail[k];
  }

  lemma SplitAddress(host: string, port: nat)
    requires ':' !in host
    ensures Split(host + ":" + NatToString(port), ':') == [host, NatToString(port)]
  {
    NoSlashInDigits(NatToString(port));
    JoinWithCons(host, [NatToString(port)], ':');
    SplitJoinWith([host, NatToString(port)], ':');
  }

  /** The URL of a routable request determines its file id, frame, address and cache flag. */
  lemma ParseThumbUrlRoundTrip(q: ThumbRequest)
    requires Routable(q)
    ensures ParseThumbUrl(ThumbUrl(q)) == Some(q)
  {
    SplitUrl(q);
    UrlPiecesAt(q);
    var pieces := UrlPieces(q);
    if q.clearCache {
      assert pieces[7] == "no-cache" && pieces[8] == "" by {
        assert pieces[7] == pieces[7..][0] && pieces[8] == pieces[7..][1];
      }
    } else {
      assert pieces[7] == pieces[7..][0];
    }
    SplitAddress(q.server.host, q.server.port);
    ParseNatToString(q.server.port);
    ParseIntToString(q.frame);
  }

  /** Whatever the reply, the path never comes from anywhere but an OK reply's text. */
  lemma ThumbPathOnlyFromOk(server: Server, fileId: string, frame: int, clearCache: bool, fetch: string -> Reply)
    ensures var url := ThumbUrl(ThumbRequest(server, fileId, frame, clearCache));
      var p := GetThumbPath(server, fileId, frame, clearCache, fetch);
      (fetch(url).ok ==> p == fetch(url).text) && (!fetch(url).ok ==> p == "")
  {
  }
}
