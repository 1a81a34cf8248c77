/** The shared character budget of a document response. */
module CharBudget {
  import opened Wrappers

  datatype Piece = Piece(text: Option<string>, truncated: bool)

  datatype Response = Response(body: string, bodyTruncated: bool, attachments: seq<Piece>, truncated: bool)

  function Text(t: Option<string>): string {
    if t.Some? then t.value else ""
  }

  /** The attachment texts, one after the other. */
  function Joined(texts: seq<Option<string>>): string {
    if |texts| == 0 then "" else Text(texts[0]) + Joined(texts[1..])
  }

  function Shown(pieces: seq<Piece>): string {
    if |pieces| == 0 then "" else Text(pieces[0].text) + Shown(pieces[1..])
  }

  predicate AnyTruncated(pieces: seq<Piece>) {
    exists i :: 0 <= i < |pieces| && pieces[i].truncated
  }

  /** The first `n` characters, how many those are, and whether any are missing. */
  function Take(s: string, n: nat): (string, nat, bool) {
    if |s| <= n then (s, |s|, false) else (s[..n], n, true)
  }

  function First(s: string, n: nat): (r: string)
    ensures r <= s && |r| <= n && (|r| == n || r == s)
  {
    if |s| <= n then s else s[..n]
  }

  /** A piece is a prefix of its source and says truthfully whether it is all of it. */
  predicate PrefixPiece(piece: Piece, source: Option<string>) {
    piece.text.Some? == source.Some? && Text(piece.text) <= Text(source)
    && (piece.truncated <==> |Text(piece.text)| < |Text(source)|)
  }

  function Cut(source: Option<string>, left: nat): Piece {
    if source.None? then Piece(None, false)
    else Piece(Some(Take(source.value, left).0), Take(source.value, left).2)
  }

  /** Every attachment gets what the ones before it have left. */
  function Share(sources: seq<Option<string>>, left: nat): seq<Piece> {
    if |sources| == 0 then []
    else [Cut(sources[0], left)] + Share(sources[1..], left - |Text(Cut(sources[0], left).text)|)
  }

  lemma FirstOfConcat(a: string, b: string, n: nat)
    ensures First(a + b, n) == First(a, n) + First(b, n - |First(a, n)|)
    ensures |a + b| > n <==> |a| > n || |b| > n - |First(a, n)|
  {
  }

  lemma CutIsPrefix(source: Option<string>, left: nat)
    ensures PrefixPiece(Cut(source, left), source)
    ensures Text(Cut(source, left).text) == First(Text(source), left)
    ensures Cut(source, left).truncated <==> |Text(source)| > left
  {
  }

  /** The shares are prefixes that together are the first `left` characters of the joined texts. */
  lemma {:induction false} ShareIsPrefixOfJoined(sources: seq<Option<string>>, left: nat)
    ensures |Share(sources, left)| == |sources|
    ensures forall i :: 0 <= i < |sources| ==> PrefixPiece(Share(sources, left)[i], sources[i])
    ensures Shown(Share(sources, left)) == First(Joined(sources), left)
    ensures AnyTruncated(Share(sources, left)) <==> |Joined(sources)| > left
  {
    if |sources| > 0 {
      var piece := Cut(sources[0], left);
      var rest := Share(sources[1..], left - |Text(piece.text)|);
      CutIsPrefix(sources[0], left);
      ShareIsPrefixOfJoined(sources[1..], left - |Text(piece.text)|);
      FirstOfConcat(Text(sources[0]), Joined(sources[1..]), left);
      AnyTruncatedCons(piece, rest);
      ShownCons(piece, rest);
    }
  }

  lemma ShownCons(piece: Piece, rest: seq<Piece>)
    ensures Shown([piece] + rest) == Text(piece.text) + Shown(rest)
  {
    assert ([piece] + rest)[1..] == rest;
  }

  lemma AnyTruncatedCons(piece: Piece, rest: seq<Piece>)
    ensures AnyTruncated([piece] + rest) <==> piece.truncated || AnyTruncated(rest)
  {
    if piece.truncated { assert ([piece] + rest)[0].truncated; }
    if AnyTruncated(rest) {
      var i :| 0 <= i < |rest| && rest[i].truncated;
      assert ([piece] + rest)[i + 1].truncated;
    }
  }

  function Budget(max: Option<nat>, maxGetChars: nat): (n: nat)
    ensures n <= maxGetChars && (max.Some? ==> n <= max.value)
    ensures n == maxGetChars || Some(n) == max
  {
    if max.Some? && max.value < maxGetChars then max.value else maxGetChars
  }

  /** An attachment's share of what is left; one without text takes nothing. */
  method GetAttachment(source: Option<string>, left: nat) returns (piece: Piece, n: nat)
    ensures piece == Cut(source, left) && n == |Text(piece.text)| <= left
  {
    piece, n := Piece(None, false), 0;
    if source.Some? {
      var (text, used, cut) := Take(source.value, left);
      piece, n := Piece(Some(text), cut), used;
    }
  }

  /** All attachments in order, each from what the ones before it have left. */
  method GetAttachments(attachments: seq<Option<string>>, budget: nat) returns (pieces: seq<Piece>, truncated: bool)
    ensures pieces == Share(attachments, budget)
    ensures truncated <==> AnyTruncated(pieces)
  {
    pieces, truncated := [], false;
    var used := 0;
    assert attachments[0..] == attachments;
    for i := 0 to |attachments|
      invariant used <= budget
      invariant pieces + Share(attachments[i..], budget - used) == Share(attachments, budget)
      invariant truncated <==> AnyTruncated(pieces)
    {
      ShareStep(pieces, attachments, i, budget - used);
      var piece, n := GetAttachment(attachments[i], budget - used);
      AnyTruncatedSnoc(pieces, piece);
      used, truncated, pieces := used + n, truncated || piece.truncated, pieces + [piece];
    }
    assert attachments[|attachments|..] == [];
  }

  /** Body and attachments draw on one budget, in order. */
  method Get(body: string, attachments: seq<Option<string>>, max: Option<nat>, maxGetChars: nat)
    returns (r: Result<Response>)
    ensures r.Err? <==> max == Some(0)
    ensures r.Ok? ==>
              var budget := Budget(max, maxGetChars);
              && r.value.body == First(body, budget)
              && (r.value.bodyTruncated <==> |body| > budget)
              && r.value.attachments == Share(attachments, budget - |First(body, budget)|)
              && (r.value.truncated <==> r.value.bodyTruncated || AnyTruncated(r.value.attachments))
  {
    if max == Some(0) {
      return Err("max_chars must be at least 1");
    }
    var budget := Budget(max, maxGetChars);
    var (shown, bodyUsed, bodyTruncated) := Take(body, budget);
    var pieces, cut := GetAttachments(attachments, budget - bodyUsed);
    r := Ok(Response(shown, bodyTruncated, pieces, bodyTruncated || cut));
  }

  lemma ShareStep(pieces: seq<Piece>, sources: seq<Option<string>>, i: nat, left: nat)
    requires i < |sources|
    ensures var piece := Cut(sources[i], left);
            pieces + Share(sources[i..], left) ==
            (pieces + [piece]) + Share(sources[i + 1..], left - |Text(piece.text)|)
  {
    assert sources[i..][1..] == sources[i + 1..];
  }

  lemma AnyTruncatedSnoc(pieces: seq<Piece>, piece: Piece)
    ensures AnyTruncated(pieces + [piece]) <==> AnyTruncated(pieces) || piece.truncated
  {
    var all := pieces + [piece];
    assert all[|pieces|] == piece;
    if AnyTruncated(pieces) {
      var i :| 0 <= i < |pieces| && pieces[i].truncated;
      assert all[i].truncated;
    }
  }

  /**
   What is returned is exactly the budget's worth of the canonical text, and the
   response says so exactly when anything is missing.
   */
  lemma ResponseIsPrefixOfCanonical(body: string, attachments: seq<Option<string>>, budget: nat)
    ensures var shown, pieces := First(body, budget), Share(attachments, budget - |First(body, budget)|);
            && shown + Shown(pieces) == First(body + Joined(attachments), budget)
            && (|body| > budget || AnyTruncated(pieces) <==> |body + Joined(attachments)| > budget)
  {
    ShareIsPrefixOfJoined(attachments, budget - |First(body, budget)|);
    FirstOfConcat(body, Joined(attachments), budget);
  }
}
