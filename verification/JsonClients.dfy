/**
  What a client of json-c sees: printing and parsing again, and parsing in pieces, with
  the buffer and the tokener as they are.
*/
module JsonClients {
  import opened JsonValue
  import opened JsonMachine
  import opened JsonChunks
  import JsonRoundTrip
  import opened JsonTokener
  import opened JsonPrinter
  import PrintBuf

  /** What json_tokener_parse_ex returned is this. */
  ghost predicate Says(f: Final, v: Json, err: TokErr) {
    match f
    case Parsed(x, _) => err == Success && v == x
    case Failed(e) => err == Error(e) && v == Null
    case Paused(_) => err == Continue && v == Null
  }

  /** Through the buffer and the tokener, every tree that is no deeper than 31 comes back,
      in every print style; a deeper one gives the depth error. */
  method WriteThenParse(v: Json, st: Style) returns (w: Json, err: TokErr)
    requires Valid(v)
    ensures if Depth(v) <= 31 then err == Success && w == v else err == Error(TooDeep) && w == Null
  {
    var pb := new PrintBuf.Printbuf();
    var s := ToJsonString(pb, v, st);
    w, err := Parse(s);
    JsonRoundTrip.DefaultRoundTrip(v, st);
  }

  /** One call of json_tokener_parse_ex. */
  method ParsePiece(tok: Tokener, ghost m: Machine, piece: string) returns (v: Json, err: TokErr)
    requires tok.Ready() && tok.Abs(Null) == m
    modifies tok, tok.stack
    ensures Says(Run(m, piece), v, err)
    ensures err == Continue ==> tok.Ready() && Run(m, piece) == Paused(tok.Abs(Null))
  {
    hide RunFrom, ModeOf, LevelOk, Frames, Waiting, Resting;
    v := tok.ParseEx(piece);
    err := tok.err;
  }

  /** One call of json_tokener_parse_ex per piece until it stops asking for more: unless a
      piece ends inside an escaped surrogate pair the verdict is that of the text in one
      piece. */
  method ParsePieces(maxDepth: nat, pieces: seq<string>) returns (v: Json, err: TokErr, used: nat)
    requires 0 < maxDepth && pieces != []
    ensures 0 < used <= |pieces| && (err == Continue ==> used == |pieces|)
    ensures Says(RunPieces(Init(maxDepth), pieces[..used]), v, err)
    ensures NoPairCut(pieces[..used]) ==> Says(Run(Init(maxDepth), Join(pieces[..used])), v, err)
  {
    hide RunPieces, Run, NoPairCut, ModeOf, LevelOk, Frames, Waiting, Resting, Says, MachineOf;
    var tok := new Tokener(maxDepth);
    v, err, used := Null, Continue, 0;
    NoPieces(Init(maxDepth));
    assert pieces[..0] == [];
    while used < |pieces| && err == Continue
      invariant used <= |pieces| && fresh(tok) && fresh(tok.stack) && tok.maxDepth == maxDepth
      invariant used > 0 ==> Says(RunPieces(Init(maxDepth), pieces[..used]), v, err)
      invariant used == 0 ==> err == Continue
      invariant err == Continue ==> tok.Ready() && RunPieces(Init(maxDepth), pieces[..used]) == Paused(tok.Abs(Null))
      invariant forall k :: 0 < k < used ==> RunPieces(Init(maxDepth), pieces[..k]).Paused?
    {
      RunPiecesSnoc(Init(maxDepth), pieces[..used], pieces[used]);
      assert pieces[..used + 1] == pieces[..used] + [pieces[used]];
      v, err := ParsePiece(tok, tok.Abs(Null), pieces[used]);
      used := used + 1;
    }
    AsWhole(maxDepth, pieces, used, v, err);
  }

  lemma AsWhole(maxDepth: nat, pieces: seq<string>, used: nat, v: Json, err: TokErr)
    requires 0 < used <= |pieces| && Says(RunPieces(Init(maxDepth), pieces[..used]), v, err)
    requires forall k :: 0 < k < used ==> RunPieces(Init(maxDepth), pieces[..k]).Paused?
    ensures NoPairCut(pieces[..used]) ==> Says(Run(Init(maxDepth), Join(pieces[..used])), v, err)
  {
    hide RunPieces, Run, NoPairCut;
    if NoPairCut(pieces[..used]) {
      var all := pieces[..used];
      forall k | 0 < k < |all| ensures RunPieces(Init(maxDepth), all[..k]).Paused? { assert all[..k] == pieces[..k]; }
      PiecesEqualWhole(maxDepth, all);
    }
  }
}
