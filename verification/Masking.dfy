/**
 Masking a request's messages under one shared entity mapping, and what unmasking gives back
 (services/inference-service/services/guardrail.py, services/pii/operators.py). Detection is outside
 the model: a message comes as the pieces Presidio found in it.
 */
module Masking {
  import opened Options
  import opened Decimals
  import opened Guardrail
  import opened Texts

  datatype Piece = Plain(text: string) | Entity(kind: string, text: string)

  /** A message without text content passes through. */
  datatype Message = Content(pieces: seq<Piece>) | NoText

  /** entity type -> original -> token. */
  type Mapping = map<string, map<string, string>>

  function Token(kind: string, index: nat): string { "<" + kind + "_" + Decimal(index) + ">" }

  predicate ProperKind(kind: string) { forall i :: 0 <= i < |kind| ==> kind[i] != '<' && kind[i] != '>' }

  predicate ProperPieces(pieces: seq<Piece>) {
    forall i :: 0 <= i < |pieces| && pieces[i].Entity? ==> ProperKind(pieces[i].kind)
  }

  predicate Proper(msgs: seq<Message>) {
    forall i :: 0 <= i < |msgs| && msgs[i].Content? ==> ProperPieces(msgs[i].pieces)
  }

  lemma TokenIsDelimited(kind: string, index: nat)
    requires ProperKind(kind)
    ensures Delimited(Token(kind, index))
  {
    var t, d := Token(kind, index), Decimal(index);
    assert forall i :: 0 < i <= |kind| ==> t[i] == kind[i - 1];
    assert forall i :: |kind| + 1 < i < |t| - 1 ==> t[i] == d[i - |kind| - 2];
  }

  lemma LastUnderscore(kind: string, index: nat)
    ensures Token(kind, index)[|kind| + 1] == '_'
    ensures forall i :: |kind| + 1 < i < |Token(kind, index)| ==> Token(kind, index)[i] != '_'
  {
    var t, d := Token(kind, index), Decimal(index);
    assert forall i :: |kind| + 1 < i < |t| - 1 ==> t[i] == d[i - |kind| - 2];
  }

  /** The index is what follows the last underscore, so no two tokens are the same. */
  lemma TokenIsInjective(kind: string, index: nat, kind': string, index': nat)
    requires Token(kind, index) == Token(kind', index')
    ensures kind == kind' && index == index'
  {
    var t, d, d' := Token(kind, index), Decimal(index), Decimal(index');
    LastUnderscore(kind, index);
    LastUnderscore(kind', index');
    assert |kind| == |kind'|;
    assert kind == t[1..|kind| + 1] && kind' == t[1..|kind| + 1];
    assert d == t[|kind| + 2..|t| - 1] && d' == t[|kind| + 2..|t| - 1];
    ParseDecimal(index);
    ParseDecimal(index');
  }

  // ---------------------------------------------------------------------------------------
  // The counter
  // ---------------------------------------------------------------------------------------

  function PerKind(m: Mapping, kind: string): map<string, string> { if kind in m then m[kind] else map[] }

  /** One value more; the index is one past the number of values its type has. */
  function WithValue(m: Mapping, kind: string, text: string): (r: Mapping)
    ensures Has(r, kind, text)
  {
    var per := PerKind(m, kind);
    m[kind := if text in per then per else per[text := Token(kind, |per| + 1)]]
  }

  ghost predicate TokenUpTo(t: string, kind: string, n: nat) { exists i: nat :: 1 <= i <= n && t == Token(kind, i) }

  ghost predicate Numbered(per: map<string, string>, kind: string) {
    && (forall o :: o in per ==> TokenUpTo(per[o], kind, |per|))
    && (forall o, p :: o in per && p in per && per[o] == per[p] ==> o == p)
  }

  ghost predicate ValidMapping(m: Mapping) { forall k :: k in m ==> ProperKind(k) && Numbered(m[k], k) }

  predicate Has(m: Mapping, kind: string, text: string) { kind in m && text in m[kind] }

  function TokenOf(m: Mapping, kind: string, text: string): string
    requires Has(m, kind, text)
  {
    m[kind][text]
  }

  ghost predicate Grows(m: Mapping, m': Mapping) {
    forall k, o :: Has(m, k, o) ==> Has(m', k, o) && TokenOf(m', k, o) == TokenOf(m, k, o)
  }

  lemma NextIsNew(t: string, kind: string, n: nat)
    requires TokenUpTo(t, kind, n)
    ensures t != Token(kind, n + 1) && TokenUpTo(t, kind, n + 1)
  {
    var i: nat :| 1 <= i <= n && t == Token(kind, i);
    if t == Token(kind, n + 1) {
      TokenIsInjective(kind, i, kind, n + 1);
    }
  }

  lemma NextIsNumbered(per: map<string, string>, kind: string, text: string)
    requires Numbered(per, kind) && text !in per
    ensures Numbered(per[text := Token(kind, |per| + 1)], kind)
  {
    var next := per[text := Token(kind, |per| + 1)];
    assert |next| == |per| + 1;
    assert TokenUpTo(Token(kind, |per| + 1), kind, |per| + 1);
    forall o | o in per
      ensures per[o] != Token(kind, |per| + 1) && TokenUpTo(per[o], kind, |per| + 1)
    {
      NextIsNew(per[o], kind, |per|);
    }
  }

  lemma UpdateKeepsValid(m: Mapping, kind: string, per: map<string, string>)
    requires ValidMapping(m) && ProperKind(kind) && Numbered(per, kind)
    ensures ValidMapping(m[kind := per])
  {
  }

  lemma WithValueGrows(m: Mapping, kind: string, text: string)
    ensures Grows(m, WithValue(m, kind, text))
  {
  }

  lemma WithValueKeepsValid(m: Mapping, kind: string, text: string)
    requires ValidMapping(m) && ProperKind(kind)
    ensures ValidMapping(WithValue(m, kind, text)) && Grows(m, WithValue(m, kind, text))
  {
    WithValueGrows(m, kind, text);
    var per := PerKind(m, kind);
    if text in per {
      UpdateKeepsValid(m, kind, per);
    } else {
      NextIsNumbered(per, kind, text);
      UpdateKeepsValid(m, kind, per[text := Token(kind, |per| + 1)]);
    }
  }

  /** Values of different types or different texts never share a token. */
  lemma TokensDistinct(m: Mapping, k: string, o: string, k': string, o': string)
    requires ValidMapping(m) && Has(m, k, o) && Has(m, k', o') && TokenOf(m, k, o) == TokenOf(m, k', o')
    ensures k == k' && o == o'
  {
    var n: nat :| 1 <= n <= |m[k]| && m[k][o] == Token(k, n);
    var n': nat :| 1 <= n' <= |m[k']| && m[k'][o'] == Token(k', n');
    TokenIsInjective(k, n, k', n');
  }

  // ---------------------------------------------------------------------------------------
  // Masking
  // ---------------------------------------------------------------------------------------

  /** Presidio calls the operator from the last entity of a text to its first. */
  function MaskPieces(m: Mapping, pieces: seq<Piece>): (Masked, Mapping) {
    if pieces == [] then (End(""), m)
    else
      var (rest, after) := MaskPieces(m, pieces[1..]);
      match pieces[0]
      case Plain(x) => (Prepend(x, rest), after)
      case Entity(kind, text) =>
        var next := WithValue(after, kind, text);
        (Node("", TokenOf(next, kind, text), rest), next)
  }

  function Original(pieces: seq<Piece>): string {
    if pieces == [] then "" else pieces[0].text + Original(pieces[1..])
  }

  function MaskMessage(m: Mapping, msg: Message): (Option<Masked>, Mapping) {
    if msg.NoText? then (None, m)
    else
      var (masked, after) := MaskPieces(m, msg.pieces);
      (Some(masked), after)
  }

  /** The mapping after the first n messages. */
  function MappingAfter(msgs: seq<Message>, n: nat): Mapping
    requires n <= |msgs|
  {
    if n == 0 then map[] else MaskMessage(MappingAfter(msgs, n - 1), msgs[n - 1]).1
  }

  class InstanceCounterAnonymizer {
    var mapping: Mapping

    constructor ()
      ensures mapping == map[]
    {
      mapping := map[];
    }

    /** operate, on the mapping shared by the whole request. */
    method Operate(kind: string, text: string) returns (token: string)
      modifies this
      ensures mapping == WithValue(old(mapping), kind, text) && token == TokenOf(mapping, kind, text)
      ensures Has(old(mapping), kind, text) ==> mapping == old(mapping)
      ensures !Has(old(mapping), kind, text) ==>
        && token == "<" + kind + "_" + Decimal(|PerKind(old(mapping), kind)| + 1) + ">"
        && (forall k, o :: Has(mapping, k, o) <==> Has(old(mapping), k, o) || (k == kind && o == text))
        && Grows(old(mapping), mapping)
    {
      if kind !in mapping {
        mapping := mapping[kind := map[]];
      }
      var per := mapping[kind];
      if text !in per {
        per := per[text := Token(kind, |per| + 1)];
        mapping := mapping[kind := per];
      }
      token := mapping[kind][text];
      assert mapping == WithValue(old(mapping), kind, text);
    }

    method MaskText(pieces: seq<Piece>) returns (text: string)
      modifies this
      ensures text == Render(MaskPieces(old(mapping), pieces).0) && mapping == MaskPieces(old(mapping), pieces).1
    {
      text := "";
      var i := |pieces|;
      while i > 0
        invariant 0 <= i <= |pieces|
        invariant text == Render(MaskPieces(old(mapping), pieces[i..]).0)
        invariant mapping == MaskPieces(old(mapping), pieces[i..]).1
      {
        i := i - 1;
        assert pieces[i..][0] == pieces[i] && pieces[i..][1..] == pieces[i + 1..];
        ghost var rest := MaskPieces(old(mapping), pieces[i + 1..]).0;
        match pieces[i] {
          case Plain(x) =>
            RenderPrepend(x, rest);
            text := x + text;
          case Entity(kind, value) =>
            var token := Operate(kind, value);
            text := token + text;
            assert Render(Node("", token, rest)) == token + Render(rest);
        }
      }
      assert pieces[0..] == pieces;
    }

    /** _mask_messages. */
    method MaskMessages(msgs: seq<Message>) returns (masked: seq<Option<string>>)
      requires mapping == map[]
      modifies this
      ensures mapping == MappingAfter(msgs, |msgs|) && |masked| == |msgs|
      ensures forall i :: 0 <= i < |msgs| ==> masked[i] == MaskedText(msgs, i)
    {
      masked := [];
      for i := 0 to |msgs|
        invariant mapping == MappingAfter(msgs, i) && |masked| == i
        invariant forall j :: 0 <= j < i ==> masked[j] == MaskedText(msgs, j)
      {
        match msgs[i] {
          case NoText =>
            masked := masked + [None];
          case Content(pieces) =>
            var text := MaskText(pieces);
            masked := masked + [Some(text)];
        }
      }
    }
  }

  function MaskedText(msgs: seq<Message>, i: nat): Option<string>
    requires i < |msgs|
  {
    var masked := MaskMessage(MappingAfter(msgs, i), msgs[i]).0;
    if masked.Some? then Some(Render(masked.value)) else None
  }

  // ---------------------------------------------------------------------------------------
  // What the shared mapping keeps
  // ---------------------------------------------------------------------------------------

  lemma {:induction false} MaskPiecesKeeps(m: Mapping, pieces: seq<Piece>)
    requires ValidMapping(m) && ProperPieces(pieces)
    ensures ValidMapping(MaskPieces(m, pieces).1) && Grows(m, MaskPieces(m, pieces).1)
  {
    if pieces != [] {
      MaskPiecesKeeps(m, pieces[1..]);
      var after := MaskPieces(m, pieces[1..]).1;
      if pieces[0].Entity? {
        WithValueKeepsValid(after, pieces[0].kind, pieces[0].text);
      }
    }
  }

  lemma {:induction false} MappingIsValid(msgs: seq<Message>, n: nat)
    requires Proper(msgs) && n <= |msgs|
    ensures ValidMapping(MappingAfter(msgs, n))
  {
    if n > 0 {
      MappingIsValid(msgs, n - 1);
      if msgs[n - 1].Content? {
        MaskPiecesKeeps(MappingAfter(msgs, n - 1), msgs[n - 1].pieces);
      }
    }
  }

  lemma {:induction false} MappingGrows(msgs: seq<Message>, i: nat, n: nat)
    requires Proper(msgs) && i <= n <= |msgs|
    ensures Grows(MappingAfter(msgs, i), MappingAfter(msgs, n))
  {
    if i < n {
      MappingGrows(msgs, i, n - 1);
      MappingIsValid(msgs, n - 1);
      if msgs[n - 1].Content? {
        MaskPiecesKeeps(MappingAfter(msgs, n - 1), msgs[n - 1].pieces);
      }
    }
  }

  /** token_to_original: the mapping turned around. */
  ghost predicate Inverts(table: Table, m: Mapping) {
    && (forall k, o :: Has(m, k, o) ==> TokenOf(m, k, o) in table && table[TokenOf(m, k, o)] == o)
    && (forall t :: t in table ==> exists k, o :: Has(m, k, o) && TokenOf(m, k, o) == t)
  }

  function AllTokens(m: Mapping): set<string> { set k, o | k in m && o in m[k] :: m[k][o] }

  lemma HasItsToken(m: Mapping, k: string, o: string)
    requires Has(m, k, o)
    ensures TokenOf(m, k, o) in AllTokens(m)
  {
  }

  lemma TokenComesFrom(m: Mapping, t: string) returns (k: string, o: string)
    requires t in AllTokens(m)
    ensures Has(m, k, o) && TokenOf(m, k, o) == t
  {
    k, o :| k in m && o in m[k] && m[k][o] == t;
  }

  /** It can be turned around without losing an entry, since tokens are distinct. */
  lemma InverseExists(m: Mapping) returns (table: Table)
    requires ValidMapping(m)
    ensures Inverts(table, m)
  {
    table := map t | t in AllTokens(m) :: ValueOf(m, t);
    forall k, o | Has(m, k, o)
      ensures TokenOf(m, k, o) in table && table[TokenOf(m, k, o)] == o
    {
      HasItsToken(m, k, o);
      ValueIs(m, k, o);
    }
    forall t | t in table
      ensures exists k, o :: Has(m, k, o) && TokenOf(m, k, o) == t
    {
      var k, o := TokenComesFrom(m, t);
    }
  }

  ghost function ValueOf(m: Mapping, t: string): string {
    if exists k, o :: Has(m, k, o) && TokenOf(m, k, o) == t then
      var k, o :| Has(m, k, o) && TokenOf(m, k, o) == t;
      o
    else t
  }

  lemma ValueIs(m: Mapping, k: string, o: string)
    requires ValidMapping(m) && Has(m, k, o)
    ensures ValueOf(m, TokenOf(m, k, o)) == o
  {
    forall k', o' | Has(m, k', o') && TokenOf(m, k', o') == TokenOf(m, k, o)
      ensures o' == o
    {
      TokensDistinct(m, k, o, k', o');
    }
  }

  lemma UpToIsDelimited(t: string, kind: string, n: nat)
    requires TokenUpTo(t, kind, n) && ProperKind(kind)
    ensures Delimited(t)
  {
    var i: nat :| 1 <= i <= n && t == Token(kind, i);
    TokenIsDelimited(kind, i);
  }

  lemma InverseTokens(table: Table, m: Mapping)
    requires ValidMapping(m) && Inverts(table, m)
    ensures Tokens(table)
  {
    forall t | t in table
      ensures Delimited(t)
    {
      var k, o :| Has(m, k, o) && TokenOf(m, k, o) == t;
      UpToIsDelimited(t, k, |m[k]|);
    }
  }

  lemma {:induction false} MaskedRestores(m: Mapping, pieces: seq<Piece>, last: Mapping, table: Table)
    requires ValidMapping(m) && ProperPieces(pieces) && Inverts(table, last) && Tokens(table)
    requires Grows(MaskPieces(m, pieces).1, last)
    ensures
      var masked := MaskPieces(m, pieces).0;
      Restore(masked, table) == Original(pieces) && Known(masked, table) && AllDelimited(masked)
  {
    if pieces != [] {
      var after := MaskPieces(m, pieces[1..]).1;
      MaskPiecesKeeps(m, pieces[1..]);
      match pieces[0] {
        case Plain(x) =>
          MaskedRestores(m, pieces[1..], last, table);
          PrependPlain(x, MaskPieces(m, pieces[1..]).0, table);
        case Entity(kind, text) =>
          EntityStep(after, kind, text, last, table);
          MaskedRestores(m, pieces[1..], last, table);
      }
    }
  }

  lemma EntityStep(after: Mapping, kind: string, text: string, last: Mapping, table: Table)
    requires ValidMapping(after) && ProperKind(kind) && Grows(WithValue(after, kind, text), last)
    requires Inverts(table, last) && Tokens(table)
    ensures Grows(after, last)
    ensures
      var t := TokenOf(WithValue(after, kind, text), kind, text);
      t in table && table[t] == text && Delimited(t)
  {
    WithValueKeepsValid(after, kind, text);
    GrowsOn(after, WithValue(after, kind, text), last);
    assert Has(last, kind, text);
  }

  lemma GrowsOn(a: Mapping, b: Mapping, c: Mapping)
    requires Grows(a, b) && Grows(b, c)
    ensures Grows(a, c)
  {
  }

  lemma PrependPlain(x: string, m: Masked, table: Table)
    requires Known(m, table) && AllDelimited(m)
    ensures Known(Prepend(x, m), table) && AllDelimited(Prepend(x, m))
    ensures Restore(Prepend(x, m), table) == x + Restore(m, table)
  {
    RestorePrepend(x, m, table);
  }

  /** Message i, under the mapping the whole request ends with. */
  lemma MessageRestores(msgs: seq<Message>, i: nat, table: Table)
    requires Proper(msgs) && i < |msgs| && msgs[i].Content? && Inverts(table, MappingAfter(msgs, |msgs|))
    ensures
      var masked := MaskPieces(MappingAfter(msgs, i), msgs[i].pieces).0;
      && Restore(masked, table) == Original(msgs[i].pieces)
      && Known(masked, table) && AllDelimited(masked) && Tokens(table)
      && MaskedText(msgs, i) == Some(Render(masked))
  {
    MappingIsValid(msgs, i);
    MappingIsValid(msgs, |msgs|);
    MappingGrows(msgs, i + 1, |msgs|);
    InverseTokens(table, MappingAfter(msgs, |msgs|));
    assert MappingAfter(msgs, i + 1) == MaskPieces(MappingAfter(msgs, i), msgs[i].pieces).1;
    MaskedRestores(MappingAfter(msgs, i), msgs[i].pieces, MappingAfter(msgs, |msgs|), table);
  }

  // ---------------------------------------------------------------------------------------
  // What the upstream sees
  // ---------------------------------------------------------------------------------------

  predicate AllHave(pieces: seq<Piece>, m: Mapping) {
    pieces != [] ==> (pieces[0].Entity? ==> Has(m, pieces[0].kind, pieces[0].text)) && AllHave(pieces[1..], m)
  }

  /** The pieces with each detected value replaced by the token this mapping has for it. */
  function Shown(pieces: seq<Piece>, m: Mapping): string
    requires AllHave(pieces, m)
  {
    if pieces == [] then ""
    else
      var first := pieces[0];
      (if first.Plain? then first.text else TokenOf(m, first.kind, first.text)) + Shown(pieces[1..], m)
  }

  lemma {:induction false} PiecesAreShown(m: Mapping, pieces: seq<Piece>, last: Mapping)
    requires ValidMapping(m) && ProperPieces(pieces) && Grows(MaskPieces(m, pieces).1, last)
    ensures AllHave(pieces, last) && Render(MaskPieces(m, pieces).0) == Shown(pieces, last)
  {
    if pieces != [] {
      var rest, after := MaskPieces(m, pieces[1..]).0, MaskPieces(m, pieces[1..]).1;
      MaskPiecesKeeps(m, pieces[1..]);
      match pieces[0] {
        case Plain(x) =>
          PiecesAreShown(m, pieces[1..], last);
          RenderPrepend(x, rest);
        case Entity(kind, text) =>
          EntityGrows(after, kind, text, last);
          PiecesAreShown(m, pieces[1..], last);
      }
    }
  }

  lemma EntityGrows(after: Mapping, kind: string, text: string, last: Mapping)
    requires ValidMapping(after) && ProperKind(kind) && Grows(WithValue(after, kind, text), last)
    ensures Grows(after, last) && Has(last, kind, text)
    ensures TokenOf(last, kind, text) == TokenOf(WithValue(after, kind, text), kind, text)
  {
    WithValueKeepsValid(after, kind, text);
    GrowsOn(after, WithValue(after, kind, text), last);
    assert Has(WithValue(after, kind, text), kind, text);
  }

  /**
   A masked message is the message with every detected value, and nothing else, replaced by the token
   that the request's final mapping has for it: equal values of a type read alike in all messages.
   */
  lemma MaskedExactly(msgs: seq<Message>, i: nat)
    requires Proper(msgs) && i < |msgs| && msgs[i].Content?
    ensures
      var pieces, last := msgs[i].pieces, MappingAfter(msgs, |msgs|);
      AllHave(pieces, last) && MaskedText(msgs, i) == Some(Shown(pieces, last))
  {
    MappingIsValid(msgs, i);
    MappingGrows(msgs, i + 1, |msgs|);
    assert MappingAfter(msgs, i + 1) == MaskPieces(MappingAfter(msgs, i), msgs[i].pieces).1;
    PiecesAreShown(MappingAfter(msgs, i), msgs[i].pieces, MappingAfter(msgs, |msgs|));
  }

  // ---------------------------------------------------------------------------------------
  // Unmasking undoes masking
  // ---------------------------------------------------------------------------------------

  /**
   Every message of a request comes back, in whatever order the tokens are replaced, if its text
   shows no token of the request's table.
   */
  lemma UnmaskUndoesMasking(msgs: seq<Message>, i: nat, table: Table, order: seq<string>)
    requires Proper(msgs) && i < |msgs| && msgs[i].Content?
    requires Inverts(table, MappingAfter(msgs, |msgs|)) && OrderOf(order, table)
    requires FreeOfTokens(Original(msgs[i].pieces), table)
    ensures Tokens(table) && MaskedText(msgs, i).Some?
    ensures UnmaskedBy(MaskedText(msgs, i).value, table, order, |order|) == Original(msgs[i].pieces)
  {
    MessageRestores(msgs, i, table);
    SequentialIsSimultaneous(MaskPieces(MappingAfter(msgs, i), msgs[i].pieces).0, table, order);
  }

  /** A message without a '<' shows no token. */
  lemma NoBracketNoToken(text: string, table: Table)
    requires Tokens(table) && forall i :: 0 <= i < |text| ==> text[i] != '<'
    ensures FreeOfTokens(text, table)
  {
    forall t, i: nat | t in table
      ensures !OccursAt(text, t, i)
    {
      assert t[0] == '<' && (i < |text| ==> text[i..][0] == text[i]);
    }
  }

  lemma {:induction false} PlainShows(m: Mapping, pieces: seq<Piece>, j: nat, u: string)
    requires j < |pieces| && pieces[j].Plain? && Contains(pieces[j].text, u)
    ensures ShowsInRun(MaskPieces(m, pieces).0, u)
  {
    var rest := MaskPieces(m, pieces[1..]).0;
    if pieces[0].Plain? {
      PrependShows(pieces[0].text, rest, u);
    }
    if j > 0 {
      PlainShows(m, pieces[1..], j - 1, u);
    }
  }

  /**
   The condition cannot be dropped: when a message's own text, outside the detected values, shows a
   token the request uses, that message does not come back, in any order.
   */
  lemma LiteralTokenNotRestored(msgs: seq<Message>, i: nat, j: nat, u: string, table: Table, order: seq<string>)
    requires Proper(msgs) && i < |msgs| && msgs[i].Content?
    requires Inverts(table, MappingAfter(msgs, |msgs|)) && OrderOf(order, table) && PlainValues(table)
    requires j < |msgs[i].pieces| && msgs[i].pieces[j].Plain? && u in table && Contains(msgs[i].pieces[j].text, u)
    ensures Tokens(table) && MaskedText(msgs, i).Some?
    ensures UnmaskedBy(MaskedText(msgs, i).value, table, order, |order|) != Original(msgs[i].pieces)
  {
    MessageRestores(msgs, i, table);
    PlainShows(MappingAfter(msgs, i), msgs[i].pieces, j, u);
    LiteralTokenIsLost(MaskPieces(MappingAfter(msgs, i), msgs[i].pieces).0, table, order, u);
  }

  /** The message as it stands is what unmasking its masked text in this order gives. */
  ghost predicate ComesBack(msgs: seq<Message>, i: nat, table: Table, order: seq<string>)
    requires Tokens(table) && i < |msgs| && msgs[i].Content?
  {
    && OrderOf(order, table) && MaskedText(msgs, i).Some?
    && UnmaskedBy(MaskedText(msgs, i).value, table, order, |order|) == Original(msgs[i].pieces)
  }

  /**
   Exactly when a message comes back in whatever order the table is iterated: once the values of all
   other tokens are put in, no token of the request shows between the tokens that are left.
   */
  lemma MessageRestoredExactly(msgs: seq<Message>, i: nat, table: Table)
    requires Proper(msgs) && i < |msgs| && msgs[i].Content?
    requires Inverts(table, MappingAfter(msgs, |msgs|)) && PlainValues(table)
    ensures Tokens(table) && MaskedText(msgs, i).Some?
    ensures
      var masked := MaskPieces(MappingAfter(msgs, i), msgs[i].pieces).0;
      (forall order :: DictOrder(order, table) ==> ComesBack(msgs, i, table, order))
      <==> forall u :: u in table ==> !ShowsAtLast(masked, table, u)
  {
    var masked := MaskPieces(MappingAfter(msgs, i), msgs[i].pieces).0;
    MessageRestores(msgs, i, table);
    RestoredExactly(masked, table);
    forall order
      ensures ComesBack(msgs, i, table, order) <==> RestoredBy(masked, table, order)
    {
    }
  }

  /** And exactly when it comes back in one given order. */
  lemma MessageRestoredInOrderExactly(msgs: seq<Message>, i: nat, table: Table, order: seq<string>)
    requires Proper(msgs) && i < |msgs| && msgs[i].Content?
    requires Inverts(table, MappingAfter(msgs, |msgs|)) && PlainValues(table) && OrderOf(order, table)
    ensures Tokens(table)
    ensures ComesBack(msgs, i, table, order)
       <==> Clean(MaskPieces(MappingAfter(msgs, i), msgs[i].pieces).0, table, order, |order|)
  {
    MessageRestores(msgs, i, table);
    RestoredInOrderExactly(MaskPieces(MappingAfter(msgs, i), msgs[i].pieces).0, table, order);
  }

  // ---------------------------------------------------------------------------------------
  // A message that quotes a token in two halves
  // ---------------------------------------------------------------------------------------

  const ECHO: seq<Piece> := [Plain("<N_"), Entity("N", "1"), Plain("> "), Entity("N", "2")]
  const ECHO_MASKED: Masked := Node("<N_", "<N_2>", Node("> ", "<N_1>", End("")))
  const ECHO_MAPPING: Mapping := map["N" := map["2" := "<N_1>", "1" := "<N_2>"]]
  const ECHO_TABLE: Table := map["<N_1>" := "2", "<N_2>" := "1"]

  lemma StepOver(m: Mapping, piece: Piece, tail: seq<Piece>)
    ensures
      var (rest, after) := MaskPieces(m, tail);
      MaskPieces(m, [piece] + tail) == match piece
        case Plain(x) => (Prepend(x, rest), after)
        case Entity(kind, text) =>
          var next := WithValue(after, kind, text);
          (Node("", TokenOf(next, kind, text), rest), next)
  {
    assert ([piece] + tail)[1..] == tail;
  }

  lemma EchoMasked()
    ensures MaskPieces(map[], ECHO) == (ECHO_MASKED, ECHO_MAPPING)
  {
    assert Token("N", 1) == "<N_1>" && Token("N", 2) == "<N_2>" by {
      assert Decimal(1) == "1" && Decimal(2) == "2";
    }
    StepOver(map[], ECHO[3], []);
    assert ECHO[3..] == [ECHO[3]] + [];
    assert WithValue(map[], "N", "2") == map["N" := map["2" := "<N_1>"]];
    StepOver(map[], ECHO[2], ECHO[3..]);
    assert ECHO[2..] == [ECHO[2]] + ECHO[3..];
    assert "> " + "" == "> ";
    StepOver(map[], ECHO[1], ECHO[2..]);
    assert ECHO[1..] == [ECHO[1]] + ECHO[2..];
    assert WithValue(map["N" := map["2" := "<N_1>"]], "N", "1") == ECHO_MAPPING;
    StepOver(map[], ECHO[0], ECHO[1..]);
    assert ECHO == [ECHO[0]] + ECHO[1..];
    assert "<N_" + "" == "<N_";
  }

  lemma EchoInverts()
    ensures Inverts(ECHO_TABLE, ECHO_MAPPING)
  {
    assert Has(ECHO_MAPPING, "N", "2") && Has(ECHO_MAPPING, "N", "1");
  }

  lemma ReplacingN1()
    ensures Replace("<N_", "<N_1>", "2") == "<N_" && Replace("> ", "<N_1>", "2") == "> "
    ensures Replace("<N_1> ", "<N_1>", "2") == "2 "
  {
  }

  lemma ReplacingN2()
    ensures Replace("<N_", "<N_2>", "1") == "<N_" && Replace("> ", "<N_2>", "1") == "> "
    ensures Replace("> 2", "<N_2>", "1") == "> 2"
  {
  }

  lemma OneOrder()
    ensures Substitute(ECHO_MASKED, "<N_1>", "2") == Node("<N_", "<N_2>", End("> 2"))
    ensures Substitute(Node("<N_", "<N_2>", End("> 2")), "<N_2>", "1") == End("<N_1> 2")
  {
    ReplacingN1();
    ReplacingN2();
    assert "> " + "2" + "" == "> 2" && "<N_" + "1" + "> 2" == "<N_1> 2";
  }

  lemma OtherOrder()
    ensures Substitute(ECHO_MASKED, "<N_2>", "1") == Node("<N_1> ", "<N_1>", End(""))
    ensures Substitute(Node("<N_1> ", "<N_1>", End("")), "<N_1>", "2") == End("2 2")
  {
    ReplacingN1();
    ReplacingN2();
    assert "<N_" + "1" + "> " == "<N_1> " && "2 " + "2" + "" == "2 2";
  }

  lemma TwoSubstitutions(m: Masked, once: Masked, text: string, table: Table, order: seq<string>)
    requires Tokens(table) && |order| == 2 && OrderOf(order, table)
    requires AllDelimited(m) && AllDelimited(once)
    requires Substitute(m, order[0], table[order[0]]) == once
    requires Substitute(once, order[1], table[order[1]]) == End(text)
    ensures UnmaskedBy(Render(m), table, order, 2) == text
  {
    ReplaceIsSubstitute(m, order[0], table[order[0]]);
    ReplaceIsSubstitute(once, order[1], table[order[1]]);
    assert UnmaskedBy(Render(m), table, order, 0) == Render(m);
    assert UnmaskedBy(Render(m), table, order, 1) == Render(once);
  }

  lemma EchoTable()
    ensures Tokens(ECHO_TABLE) && PlainValues(ECHO_TABLE) && AllDelimited(ECHO_MASKED)
    ensures OrderOf(["<N_1>", "<N_2>"], ECHO_TABLE) && OrderOf(["<N_2>", "<N_1>"], ECHO_TABLE)
    ensures ECHO_TABLE["<N_1>"] == "2" && ECHO_TABLE["<N_2>"] == "1"
  {
    assert "<N_1>" in ["<N_1>", "<N_2>"] && "<N_2>" in ["<N_1>", "<N_2>"];
    assert "<N_1>" in ["<N_2>", "<N_1>"] && "<N_2>" in ["<N_2>", "<N_1>"];
  }

  lemma EchoInOneOrder()
    ensures Tokens(ECHO_TABLE) && OrderOf(["<N_1>", "<N_2>"], ECHO_TABLE)
    ensures UnmaskedBy(Render(ECHO_MASKED), ECHO_TABLE, ["<N_1>", "<N_2>"], 2) == "<N_1> 2"
  {
    EchoTable();
    OneOrder();
    TwoSubstitutions(ECHO_MASKED, Node("<N_", "<N_2>", End("> 2")), "<N_1> 2", ECHO_TABLE, ["<N_1>", "<N_2>"]);
  }

  lemma EchoInTheOther()
    ensures Tokens(ECHO_TABLE) && OrderOf(["<N_2>", "<N_1>"], ECHO_TABLE)
    ensures UnmaskedBy(Render(ECHO_MASKED), ECHO_TABLE, ["<N_2>", "<N_1>"], 2) == "2 2"
  {
    EchoTable();
    OtherOrder();
    TwoSubstitutions(ECHO_MASKED, Node("<N_1> ", "<N_1>", End("")), "2 2", ECHO_TABLE, ["<N_2>", "<N_1>"]);
  }

  lemma EchoOriginal()
    ensures Original(ECHO) == "<N_1> 2" && ProperPieces(ECHO)
  {
    assert Original(ECHO[3..]) == "2";
    assert Original(ECHO[2..]) == "> 2";
    assert Original(ECHO[1..]) == "1> 2";
  }

  lemma EchoMessage()
    ensures MappingAfter([Content(ECHO)], 1) == ECHO_MAPPING
    ensures MaskedText([Content(ECHO)], 0) == Some(Render(ECHO_MASKED))
  {
    EchoMasked();
    assert MappingAfter([Content(ECHO)], 0) == map[];
  }

  /** A message that comes back in one order of its two tokens and not in the other. */
  lemma TheOrderDecides()
    ensures Original(ECHO) == "<N_1> 2" && ProperPieces(ECHO) && Tokens(ECHO_TABLE) && PlainValues(ECHO_TABLE)
    ensures Inverts(ECHO_TABLE, MappingAfter([Content(ECHO)], 1))
    ensures ComesBack([Content(ECHO)], 0, ECHO_TABLE, ["<N_1>", "<N_2>"])
    ensures !ComesBack([Content(ECHO)], 0, ECHO_TABLE, ["<N_2>", "<N_1>"])
  {
    EchoOriginal();
    EchoMessage();
    EchoInverts();
    EchoTable();
    EchoInOneOrder();
    EchoInTheOther();
  }
}
