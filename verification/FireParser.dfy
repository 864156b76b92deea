/**
 Parsing of FIRE commands, `firing_sequence_parse` of src/control/firing_sequence.c.

 A payload is a list of blocks `id#value#duration[#wait]` separated by bars.  The parser is
 compared with a grammar that does not mention `sscanf`: split the token at every '#' and look at
 the fields.
 */
module FireParser {
  import opened Base
  import opened Scan
  import opened FiringProtocol

  const MAX_FIRING_BLOCKS: nat := 24

  const BLOCK_WITH_WAIT :=
    Number(16, U32, Hash(Number(16, U16, Hash(Number(10, U16, Hash(Number(10, U16, AnyChar(End))))))))
  const BLOCK_WITHOUT_WAIT :=
    Number(16, U32, Hash(Number(16, U16, Hash(Number(10, U16, AnyChar(End))))))

  /** One token: four fields, or else three, with nothing behind them, and an id in 1..0x7FF. */
  function ParseBlock(token: string): Option<Block> {
    var four := Sscanf(BLOCK_WITH_WAIT, token);
    var three := Sscanf(BLOCK_WITHOUT_WAIT, token);
    if |four| == 4 then Checked(Block(Frame(four[0], four[1], four[2]), four[3]))
    else if |three| == 3 then Checked(Block(Frame(three[0], three[1], three[2]), 0))
    else None
  }

  function Checked(b: Block): Option<Block> {
    if b.frame.id == 0 || b.frame.id > MAX_CAN_ID then None else Some(b)
  }

  // ---------------------------------------------------------------- the grammar

  function HashAt(s: string): (k: nat)
    ensures k <= |s| && '#' !in s[..k] && (k < |s| ==> s[k] == '#')
  {
    if s == [] || s[0] == '#' then 0
    else
      var k := 1 + HashAt(s[1..]);
      assert s[..k] == [s[0]] + s[1..][..k - 1];
      k
  }

  /** The text between the '#' characters; an empty field is a field. */
  function Fields(s: string): (f: seq<string>)
    ensures f != []
    decreases |s|
  {
    var k := HashAt(s);
    if k == |s| then [s] else [s[..k]] + Fields(s[k + 1..])
  }

  datatype Spec = Spec(base: nat, limit: nat)

  predicate IsNumber(s: string, base: nat) { s != "" && AllDigits(s, base) }

  predicate Match(specs: seq<Spec>, fields: seq<string>) {
    |specs| == |fields| && forall i :: 0 <= i < |specs| ==> IsNumber(fields[i], specs[i].base)
  }

  function Values(specs: seq<Spec>, fields: seq<string>): (v: seq<nat>)
    requires |specs| == |fields|
    ensures |v| == |specs|
    ensures forall i :: 0 <= i < |v| ==> v[i] == Wrapped(Numeral(fields[i], specs[i].base), specs[i].limit)
  {
    seq(|specs|, i requires 0 <= i < |specs| => Wrapped(Numeral(fields[i], specs[i].base), specs[i].limit))
  }

  const SHORT := [Spec(16, U32), Spec(16, U16), Spec(10, U16)]
  const LONG := [Spec(16, U32), Spec(16, U16), Spec(10, U16), Spec(10, U16)]

  /** The block a list of fields stands for: four numbers, or three and no wait, with an id in 1..0x7FF. */
  function BlockOf(fields: seq<string>): Option<Block> {
    if Match(LONG, fields) then
      var v := Values(LONG, fields);
      if 1 <= v[0] <= 0x7FF then Some(Block(Frame(v[0], v[1], v[2]), v[3])) else None
    else if Match(SHORT, fields) then
      var v := Values(SHORT, fields);
      if 1 <= v[0] <= 0x7FF then Some(Block(Frame(v[0], v[1], v[2]), 0)) else None
    else None
  }

  // ---------------------------------------------------------------- sscanf against the grammar

  /** Numbers separated by '#', with a %c at the end that catches anything behind them. */
  function FieldFormat(specs: seq<Spec>): Format
    requires specs != []
  {
    Number(specs[0].base, specs[0].limit,
           if |specs| == 1 then AnyChar(End) else Hash(FieldFormat(specs[1..])))
  }

  /** The digits at the front end exactly at the first '#', or they do not make up the first field. */
  lemma {:induction false} FrontField(s: string, base: nat)
    requires base <= 16
    ensures DigitRun(s, base) <= HashAt(s)
    ensures DigitRun(s, base) == HashAt(s) <==> AllDigits(s[..HashAt(s)], base)
  {
  }

  lemma FieldsStep(s: string)
    ensures Fields(s)[0] == s[..HashAt(s)]
    ensures HashAt(s) == |s| ==> Fields(s) == [s]
    ensures HashAt(s) < |s| ==> |Fields(s)| > 1 && Fields(s)[1..] == Fields(s[HashAt(s) + 1..])
  {
  }

  lemma {:induction false} HashAfter(field: string, rest: string)
    requires '#' !in field
    ensures HashAt(field + ("#" + rest)) == |field|
  {
    if field == [] {
      assert field + ("#" + rest) == "#" + rest;
    } else {
      HashAfter(field[1..], rest);
      assert (field + ("#" + rest))[1..] == field[1..] + ("#" + rest);
    }
  }

  /** A field in front of others. */
  lemma FieldsSplit(field: string, rest: string)
    requires '#' !in field
    ensures Fields(field + ("#" + rest)) == [field] + Fields(rest)
  {
    var s := field + ("#" + rest);
    HashAfter(field, rest);
    assert s[..|field|] == field && s[|field| + 1..] == rest;
  }

  lemma {:induction false} FieldsWhole(field: string)
    requires '#' !in field
    ensures Fields(field) == [field]
  {
    FieldsStep(field);
  }

  /** All numbers convert and nothing is left exactly when the fields match the specification. */
  lemma {:induction false} SscanfMatches(specs: seq<Spec>, s: string)
    requires specs != [] && forall i :: 0 <= i < |specs| ==> specs[i].base <= 16
    ensures |Sscanf(FieldFormat(specs), s)| == |specs| <==> Match(specs, Fields(s))
    ensures Match(specs, Fields(s)) ==> Sscanf(FieldFormat(specs), s) == Values(specs, Fields(s))
    decreases |specs|
  {
    var base := specs[0].base;
    var k, h := DigitRun(s, base), HashAt(s);
    FrontField(s, base);
    FieldsStep(s);
    if k == 0 {
      assert !IsNumber(Fields(s)[0], base);
    } else if |specs| == 1 {
      if k == |s| {
        assert s[..k] == s;
      }
    } else if k == h && h < |s| {
      var rest := s[h + 1..];
      assert s[h..][1..] == rest;
      SscanfMatches(specs[1..], rest);
      MatchStep(specs, Fields(s));
    } else {
      assert Sscanf(FieldFormat(specs), s) == [Wrapped(Numeral(s[..k], base), specs[0].limit)];
    }
  }

  lemma MatchStep(specs: seq<Spec>, fields: seq<string>)
    requires |specs| > 1 && |fields| > 1
    ensures Match(specs, fields) <==> IsNumber(fields[0], specs[0].base) && Match(specs[1..], fields[1..])
    ensures Match(specs, fields) ==>
              Values(specs, fields)
              == [Wrapped(Numeral(fields[0], specs[0].base), specs[0].limit)] + Values(specs[1..], fields[1..])
  {
  }

  lemma FormatStep(spec: Spec, specs: seq<Spec>)
    requires specs != []
    ensures FieldFormat([spec] + specs) == Number(spec.base, spec.limit, Hash(FieldFormat(specs)))
  {
  }

  lemma FormatsAgree()
    ensures FieldFormat(SHORT) == BLOCK_WITHOUT_WAIT && FieldFormat(LONG) == BLOCK_WITH_WAIT
  {
    var h, v, u := Spec(16, U32), Spec(16, U16), Spec(10, U16);
    FormatStep(v, [u]);
    FormatStep(h, [v] + [u]);
    FormatStep(u, [u]);
    FormatStep(v, [u] + [u]);
    FormatStep(h, [v] + ([u] + [u]));
    assert SHORT == [h] + ([v] + [u]) && LONG == [h] + ([v] + ([u] + [u]));
  }

  /** The two `sscanf` calls accept exactly the three- and four-field blocks, with these values. */
  lemma {:induction false} ParseBlockIsGrammar(token: string)
    ensures ParseBlock(token) == BlockOf(Fields(token))
  {
    FormatsAgree();
    SscanfMatches(SHORT, token);
    SscanfMatches(LONG, token);
  }

  // ---------------------------------------------------------------- the command

  /** The tokens that are looked at: at most the first 24 behind the first bar. */
  function Looked(command: string): seq<string>
    requires '|' in command
  {
    BarIsFound(command);
    var tokens := Tokens(command[BarAt(command) + 1..]);
    tokens[..Min(|tokens|, 24)]
  }

  predicate AllBlocks(tokens: seq<string>) {
    forall i :: 0 <= i < |tokens| ==> BlockOf(Fields(tokens[i])).Some?
  }

  function Blocks(tokens: seq<string>): (r: seq<Block>)
    requires AllBlocks(tokens)
    ensures |r| == |tokens| && forall i :: 0 <= i < |r| ==> BlockOf(Fields(tokens[i])) == Some(r[i])
  {
    seq(|tokens|, i requires 0 <= i < |tokens| => BlockOf(Fields(tokens[i])).value)
  }

  /**
   What a FIRE command means: it has a bar and at least one token, each of the first 24 is wholly
   a block with an id in 1..0x7FF, and the sequence is these blocks in order.
   */
  function Meaning(command: string): Option<seq<Block>> {
    if '|' in command && Looked(command) != [] && AllBlocks(Looked(command))
    then Some(Blocks(Looked(command))) else None
  }

  /** `strtok_r` for one token: skips bars, and returns the token and the text behind it. */
  method NextToken(s: string) returns (token: string, rest: string)
    ensures token == "" ==> Tokens(s) == [] && rest == ""
    ensures token != "" ==> Tokens(s) == [token] + Tokens(rest) && |rest| < |s|
  {
    rest := s;
    while rest != [] && rest[0] == '|'
      invariant Tokens(s) == Tokens(rest) && |rest| <= |s|
      decreases |rest|
    {
      rest := rest[1..];
    }
    var k := BarAt(rest);
    token, rest := rest[..k], rest[k..];
  }

  lemma TakeOne(all: seq<string>, n: nat, token: string, rest: seq<string>)
    requires n <= |all| && all[n..] == [token] + rest
    ensures n < |all| && all[n] == token && all[n + 1..] == rest
  {
    assert all[n..][1..] == rest;
  }

  /** The loop of `firing_sequence_parse`, over the text behind the first bar. */
  method ParsePayload(payload: string) returns (r: Option<seq<Block>>)
    ensures var tokens := Tokens(payload);
            var looked := tokens[..Min(|tokens|, 24)];
            && (r.Some? <==> looked != [] && forall i :: 0 <= i < |looked| ==> ParseBlock(looked[i]).Some?)
            && (r.Some? ==> |r.value| == |looked|
                            && forall i :: 0 <= i < |looked| ==> ParseBlock(looked[i]) == Some(r.value[i]))
  {
    ghost var all := Tokens(payload);
    var token, rest := NextToken(payload);
    var blocks: seq<Block> := [];
    while token != "" && |blocks| < MAX_FIRING_BLOCKS
      invariant |blocks| <= |all| && |blocks| <= MAX_FIRING_BLOCKS
      invariant all[|blocks|..] == if token == "" then [] else [token] + Tokens(rest)
      invariant forall i :: 0 <= i < |blocks| ==> ParseBlock(all[i]) == Some(blocks[i])
      decreases |rest|, token != ""
    {
      var block := ParseBlock(token);
      TakeOne(all, |blocks|, token, Tokens(rest));
      if block.None? {
        assert all[..Min(|all|, MAX_FIRING_BLOCKS)][|blocks|] == token;
        return None;
      }
      blocks := blocks + [block.value];
      token, rest := NextToken(rest);
    }
    assert |blocks| == Min(|all|, MAX_FIRING_BLOCKS);
    return if blocks == [] then None else Some(blocks);
  }

  /** `firing_sequence_parse`. */
  method Parse(command: string) returns (r: Option<seq<Block>>)
    ensures r == Meaning(command)
    ensures r.Some? ==> 1 <= |r.value| <= 24
  {
    if '|' !in command {
      return None;
    }
    BarIsFound(command);
    r := ParsePayload(command[BarAt(command) + 1..]);
    ghost var looked := Looked(command);
    forall i | 0 <= i < |looked| ensures ParseBlock(looked[i]) == BlockOf(Fields(looked[i])) {
      ParseBlockIsGrammar(looked[i]);
    }
    if r.Some? {
      assert r.value == Blocks(looked);
    }
  }

  // ---------------------------------------------------------------- round trip

  predicate Printable(b: Block) {
    1 <= b.frame.id <= MAX_CAN_ID && b.frame.value < U16 && b.frame.durationMs < U16 && b.waitMs < U16
  }

  function PrintFields(a: string, b: string, c: string, tail: string): string {
    a + ("#" + (b + ("#" + (c + tail))))
  }

  /** A block as the command reference writes it; the wait may be left out when it is zero. */
  function PrintBlock(b: Block, withWait: bool): string {
    PrintFields(Padded(b.frame.id, 16, 3), Padded(b.frame.value, 16, 4), Digits(b.frame.durationMs, 10),
                if withWait then "#" + Digits(b.waitMs, 10) else "")
  }

  lemma Three(a: nat, b: nat, c: nat, x: seq<nat>)
    ensures [a] + ([b] + ([c] + x)) == [a, b, c] + x
  {
  }

  lemma ThreeFields(f: Format, a: string, b: string, c: string, tail: string)
    requires IsNumber(a, 16) && IsNumber(b, 16) && IsNumber(c, 10) && (tail != "" ==> tail[0] == '#')
    ensures Sscanf(Number(16, U32, Hash(Number(16, U16, Hash(Number(10, U16, f))))), PrintFields(a, b, c, tail))
         == [Numeral(a, 16) % U32, Numeral(b, 16) % U16, Numeral(c, 10) % U16] + Sscanf(f, tail)
  {
    var rest := b + ("#" + (c + tail));
    SscanfField(16, U32, Number(16, U16, Hash(Number(10, U16, f))), a, rest);
    SscanfField(16, U16, Number(10, U16, f), b, c + tail);
    SscanfNumber(10, U16, f, c, tail);
    Three(Numeral(a, 16) % U32, Numeral(b, 16) % U16, Numeral(c, 10) % U16, Sscanf(f, tail));
  }

  lemma HashTail(d: string)
    requires IsNumber(d, 10)
    ensures Sscanf(Hash(Number(10, U16, AnyChar(End))), "#" + d) == [Numeral(d, 10) % U16]
  {
    assert ("#" + d)[1..] == d;
    SscanfLast(10, U16, AnyChar(End), d);
  }

  /** Reading back a block made of these digit strings. */
  lemma ParseFields(a: string, b: string, c: string, d: string)
    requires IsNumber(a, 16) && IsNumber(b, 16) && IsNumber(c, 10) && IsNumber(d, 10)
    ensures ParseBlock(PrintFields(a, b, c, "#" + d))
         == Checked(Block(Frame(Numeral(a, 16) % U32, Numeral(b, 16) % U16, Numeral(c, 10) % U16),
                          Numeral(d, 10) % U16))
    ensures ParseBlock(PrintFields(a, b, c, ""))
         == Checked(Block(Frame(Numeral(a, 16) % U32, Numeral(b, 16) % U16, Numeral(c, 10) % U16), 0))
  {
    var last := Hash(Number(10, U16, AnyChar(End)));
    ThreeFields(last, a, b, c, "#" + d);
    HashTail(d);
    ThreeFields(last, a, b, c, "");
    ThreeFields(AnyChar(End), a, b, c, "");
  }

  lemma InRange(b: Block)
    requires Printable(b)
    ensures Checked(Block(Frame(b.frame.id % U32, b.frame.value % U16, b.frame.durationMs % U16), b.waitMs % U16))
         == Some(b)
  {
  }

  lemma BlockRoundTrip(b: Block, withWait: bool)
    requires Printable(b) && (withWait || b.waitMs == 0)
    ensures ParseBlock(PrintBlock(b, withWait)) == Some(b)
  {
    var id, value, duration, wait :=
      Padded(b.frame.id, 16, 3), Padded(b.frame.value, 16, 4), Digits(b.frame.durationMs, 10), Digits(b.waitMs, 10);
    DigitsNumeral(b.frame.durationMs, 10);
    DigitsNumeral(b.waitMs, 10);
    ParseFields(id, value, duration, wait);
    InRange(b);
    if withWait {
      assert PrintBlock(b, withWait) == PrintFields(id, value, duration, "#" + wait);
    } else {
      assert PrintBlock(b, withWait) == PrintFields(id, value, duration, "");
    }
  }

  lemma BlockIsToken(b: Block, withWait: bool)
    ensures PrintBlock(b, withWait) != "" && '|' !in PrintBlock(b, withWait)
  {
  }

  function PrintAll(blocks: seq<Block>, withWait: seq<bool>): (r: seq<string>)
    requires |blocks| == |withWait|
    ensures |r| == |blocks| && forall i :: 0 <= i < |r| ==> r[i] == PrintBlock(blocks[i], withWait[i])
  {
    seq(|blocks|, i requires 0 <= i < |blocks| => PrintBlock(blocks[i], withWait[i]))
  }

  const FIRE := "FIRE#8765"

  /** The command text for a list of blocks. */
  function PrintCommand(blocks: seq<Block>, withWait: seq<bool>): string
    requires |blocks| == |withWait|
  {
    FIRE + ("|" + Joined(PrintAll(blocks, withWait)))
  }

  /** The tokens of a printed command are the printed parts. */
  lemma LookedIsParts(prefix: string, parts: seq<string>)
    requires '|' !in prefix && |parts| <= MAX_FIRING_BLOCKS
    requires forall i :: 0 <= i < |parts| ==> parts[i] != "" && '|' !in parts[i]
    ensures var command := prefix + ("|" + Joined(parts));
            '|' in command && Looked(command) == parts
  {
    SplitAtBar(prefix, Joined(parts));
    TokensOfJoined(parts);
    assert parts[..|parts|] == parts;
  }

  /** Printing 1..24 valid blocks and parsing the command returns the same blocks. */
  lemma {:induction false} FireRoundTrip(blocks: seq<Block>, withWait: seq<bool>)
    requires 1 <= |blocks| == |withWait| <= 24
    requires forall i :: 0 <= i < |blocks| ==> Printable(blocks[i]) && (withWait[i] || blocks[i].waitMs == 0)
    ensures Meaning(PrintCommand(blocks, withWait)) == Some(blocks)
  {
    var parts := PrintAll(blocks, withWait);
    forall i | 0 <= i < |blocks|
      ensures parts[i] != "" && '|' !in parts[i] && BlockOf(Fields(parts[i])) == Some(blocks[i])
    {
      BlockIsToken(blocks[i], withWait[i]);
      BlockRoundTrip(blocks[i], withWait[i]);
      ParseBlockIsGrammar(parts[i]);
    }
    LookedIsParts(FIRE, parts);
    assert Blocks(parts) == blocks;
  }
}
