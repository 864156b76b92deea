/** Recognising commands and the WIGGLE handlers of src/control/command.c. */
module Commands {
  import opened Base
  import opened Scan
  import opened Wiggle
  import FireParser
  import FiringProtocol
  import CanListener

  // ---------------------------------------------------------------- WIGGLE entries

  const WIGGLE_FORMAT :=
    Number(16, U32, Hash(Number(16, U16, Hash(Number(16, U16, Hash(Number(16, U16,
      Hash(Number(10, U32, Hash(Number(10, U32, End)))))))))))

  /** `id#start#end#exit#period[#total]`; what follows the fields is not looked at. */
  function ParseEntry(token: string): Option<Request> {
    var v := Sscanf(WIGGLE_FORMAT, token);
    if |v| == 5 then Some(Request(v[0], v[1], v[2], v[3], v[4], 0))
    else if |v| == 6 then Some(Request(v[0], v[1], v[2], v[3], v[4], v[5]))
    else None
  }

  /** The tokens behind the command word. */
  function Arguments(text: string): seq<string> {
    var tokens := Tokens(text);
    if tokens == [] then [] else tokens[1..]
  }

  function Entries(text: string): (r: seq<Option<Request>>)
    ensures |r| == |Arguments(text)|
    ensures forall i :: 0 <= i < |r| ==> r[i] == ParseEntry(Arguments(text)[i])
  {
    seq(|Arguments(text)|, i requires 0 <= i < |Arguments(text)| => ParseEntry(Arguments(text)[i]))
  }

  function ParseId(token: string): Option<nat> {
    var v := Sscanf(Number(16, U32, End), token);
    if |v| == 1 then Some(v[0]) else None
  }

  function StopIds(text: string): seq<Option<nat>> {
    seq(|Arguments(text)|, i requires 0 <= i < |Arguments(text)| => ParseId(Arguments(text)[i]))
  }

  // ---------------------------------------------------------------- dispatch

  datatype ValveChange = MainId(id: nat) | VentId(id: nat) | MainOpen(angle: nat) | VentClose(angle: nat)

  datatype ValveText = ValveText(name: string, value: nat)

  /** The scan of both SET_VALVE handlers: `#name#value`, the name at most 31 characters. */
  function ValveFields(rest: string): Option<ValveText> {
    if rest == [] || rest[0] != '#' then None
    else
      var fields := FireParser.Fields(rest[1..]);
      if |fields| < 2 || fields[0] == "" || |fields[0]| > 31 then None
      else
        var v := Sscanf(Number(16, U32, End), fields[1]);
        if |v| != 1 then None else Some(ValveText(fields[0], v[0]))
  }

  /** `handle_set_valve`. */
  function ParseValve(rest: string): Option<ValveChange> {
    match ValveFields(rest)
    case None => None
    case Some(ValveText(name, value)) =>
      if name == "LOX_MAIN" then (if value > 0x7FF then None else Some(MainId(value)))
      else if name == "LOX_VENT" then (if value > 0x7FF then None else Some(VentId(value)))
      else if name == "LOX_MAIN_ANGLE_OPEN" then (if value > 0x0B4 then None else Some(MainOpen(value)))
      else if name == "LOX_VENT_ANGLE_CLOSE" then (if value > 0x0B4 then None else Some(VentClose(value)))
      else None
  }

  /** What a text asks for; `None` inside a command stands for a format error. */
  datatype Command =
    | ReadToggle(writeOnly: bool)
    | Abort
    | SetState(mode: Option<Mode>)
    | SetValve(change: Option<ValveChange>)
    | WiggleStop(ids: seq<Option<nat>>)
    | WiggleStart(entries: seq<Option<Request>>)
    | Drown
    | Fire(blocks: Option<seq<FiringProtocol.Block>>)
    | Raw(raw: CanListener.RawCommand)
    | Invalid

  function StripCanPrefix(text: string): string {
    if "CAN1|" <= text then text[5..] else text
  }

  /** The order of the handlers in `command_handle_text`. */
  function Classify(text: string): Command {
    if text == "READ-DISABLE" then ReadToggle(true)
    else if text == "READ-ENABLE" then ReadToggle(false)
    else ClassifyNormalized(StripCanPrefix(text))
  }

  function ClassifyNormalized(text: string): Command {
    if text == "ABORT#8765" then Abort
    else if "STATE#" <= text then
      SetState(if text[6..] == "PRECHILLING" then Some(Prechilling)
               else if text[6..] == "HOTFIRE" then Some(Hotfire) else None)
    else if "SET_VALVE" <= text then SetValve(ParseValve(text[9..]))
    else ClassifyRest(text)
  }

  /** The handlers that work on a copy of the text, and those behind them. */
  function ClassifyRest(text: string): Command {
    if "WIGGLE_STOP" <= text then WiggleStop(StopIds(text))
    else if "WIGGLE" <= text then WiggleStart(Entries(text))
    else if text == "DROWN#8765" then Drown
    else if "FIRE#8765" <= text then Fire(FireParser.Meaning(text))
    else
      match CanListener.ParseRaw(text)
      case None => Invalid
      case Some(raw) => Raw(raw)
  }

  // ---------------------------------------------------------------- the WIGGLE handlers

  /** The table after a command with a list of entries, how many took effect, and whether one failed. */
  datatype Outcome = Outcome(table: Table, count: nat, failed: bool)

  /** The loop of `handle_wiggle`; `nows[i]` is the clock when entry `i` is started. */
  function StartAll(t: Table, entries: seq<Option<Request>>, nows: seq<nat>): Outcome
    requires |nows| == |entries|
    decreases |entries|
  {
    if entries == [] then Outcome(t, 0, false)
    else if entries[0].None? || !Starts(t.slots, entries[0].value) then Outcome(t, 0, true)
    else
      var rest := StartAll(Apply(t, Start(entries[0].value, nows[0])), entries[1..], nows[1..]);
      rest.(count := rest.count + 1)
  }

  /** `handle_wiggle` in PRECHILLING. */
  method HandleWiggle(table: WiggleTable, entries: seq<Option<Request>>, nows: seq<nat>)
    returns (started: nat, failed: bool)
    requires |nows| == |entries|
    modifies table, table.slots
    ensures Outcome(table.Contents(), started, failed) == StartAll(old(table.Contents()), entries, nows)
  {
    started, failed := 0, false;
    ghost var goal := StartAll(table.Contents(), entries, nows);
    while started < |entries|
      invariant started <= |entries| && !failed
      invariant var rest := StartAll(table.Contents(), entries[started..], nows[started..]);
                goal == rest.(count := rest.count + started)
    {
      assert entries[started..][0] == entries[started] && nows[started..][0] == nows[started];
      assert entries[started..][1..] == entries[started + 1..] && nows[started..][1..] == nows[started + 1..];
      if entries[started].None? {
        failed := true;
        return;
      }
      var ok := table.Start(entries[started].value, nows[started]);
      if !ok {
        failed := true;
        return;
      }
      started := started + 1;
    }
  }

  predicate IsActive(t: Table, id: nat) { SlotOf(t.slots, id) < |t.slots| }

  /** The loop of `handle_wiggle_stop`. */
  function StopEach(t: Table, ids: seq<Option<nat>>): Outcome
    decreases |ids|
  {
    if ids == [] then Outcome(t, 0, false)
    else if ids[0].None? then Outcome(t, 0, true)
    else
      var rest := StopEach(Apply(t, Stop(ids[0].value)), ids[1..]);
      rest.(count := rest.count + if IsActive(t, ids[0].value) then 1 else 0)
  }

  /** `handle_wiggle_stop`: ids before the first that does not parse are stopped. */
  method HandleWiggleStop(table: WiggleTable, ids: seq<Option<nat>>) returns (stopped: nat, failed: bool)
    modifies table, table.slots
    ensures Outcome(table.Contents(), stopped, failed) == StopEach(old(table.Contents()), ids)
  {
    stopped, failed := 0, false;
    ghost var goal := StopEach(table.Contents(), ids);
    for i := 0 to |ids|
      invariant !failed
      invariant var rest := StopEach(table.Contents(), ids[i..]);
                goal == rest.(count := rest.count + stopped)
    {
      assert ids[i..][0] == ids[i] && ids[i..][1..] == ids[i + 1..];
      if ids[i].None? {
        failed := true;
        return;
      }
      var ok := table.Stop(ids[i].value);
      if ok {
        stopped := stopped + 1;
      }
    }
  }

  // ---------------------------------------------------------------- testing mode

  predicate TestingWiggle(entries: seq<Option<Request>>) {
    entries != [] && forall i :: 0 <= i < |entries| ==> entries[i].Some? && Valid(entries[i].value)
  }

  /** `handle_testing_wiggle`: checks every entry and touches nothing. */
  method HandleTestingWiggle(entries: seq<Option<Request>>) returns (accepted: bool)
    ensures accepted <==> TestingWiggle(entries)
  {
    var blocks := 0;
    while blocks < |entries|
      invariant blocks <= |entries|
      invariant forall i :: 0 <= i < blocks ==> entries[i].Some? && Valid(entries[i].value)
    {
      var entry := entries[blocks];
      if entry.None? || entry.value.id > MAX_CAN_ID || entry.value.period == 0 {
        return false;
      }
      blocks := blocks + 1;
    }
    return blocks > 0;
  }

  predicate TestingStop(ids: seq<Option<nat>>) {
    ids != [] && forall i :: 0 <= i < |ids| ==> ids[i].Some?
  }

  /** `handle_testing_wiggle_stop`. */
  method HandleTestingWiggleStop(ids: seq<Option<nat>>) returns (accepted: bool)
    ensures accepted <==> TestingStop(ids)
  {
    var parsed := 0;
    while parsed < |ids|
      invariant parsed <= |ids|
      invariant forall i :: 0 <= i < parsed ==> ids[i].Some?
    {
      if ids[parsed].None? {
        return false;
      }
      parsed := parsed + 1;
    }
    return parsed > 0;
  }

  /** `handle_testing_set_valve`: ids and angles have one range each. */
  predicate TestingValve(rest: string) {
    match ValveFields(rest)
    case None => false
    case Some(ValveText(name, value)) =>
      if name == "LOX_MAIN" || name == "LOX_VENT" then value <= 0x7FF
      else if name == "LOX_MAIN_ANGLE_OPEN" || name == "LOX_VENT_ANGLE_CLOSE" then value <= 0x0B4
      else false
  }

  /** `handle_testing_raw_can`. */
  predicate TestingRaw(text: string) {
    var raw := CanListener.ParseRaw(text);
    raw.Some? && raw.value.id <= 0x7FF
  }

  /** Whether `handle_testing_command` answers that it parsed the text, handler after handler. */
  predicate TestingAnswer(text: string) {
    if text == "ABORT#8765" then true
    else if "STATE#" <= text then text[6..] == "PRECHILLING" || text[6..] == "HOTFIRE"
    else if "SET_VALVE" <= text then TestingValve(text[9..])
    else TestingRest(text)
  }

  predicate TestingRest(text: string) {
    if "WIGGLE_STOP" <= text then TestingStop(StopIds(text))
    else if "WIGGLE" <= text then TestingWiggle(Entries(text))
    else if text == "DROWN#8765" then true
    else if "FIRE#8765" <= text then FireParser.Meaning(text).Some?
    else TestingRaw(text)
  }

  // ---------------------------------------------------------------- printing commands

  /** Requests whose fields fit the variables they are read into. */
  predicate Printable(r: Request) {
    && r.id < U32 && r.startValue < U16 && r.endValue < U16 && r.exitValue < U16
    && r.period < U32 && r.total < U32
  }

  function FiveFields(a: string, b: string, c: string, d: string, e: string, tail: string): string {
    a + ("#" + (b + ("#" + (c + ("#" + (d + ("#" + (e + tail))))))))
  }

  /** An entry as the command reference writes it; the total may be left out when it is zero. */
  function PrintEntry(r: Request, withTotal: bool): string {
    FiveFields(Padded(r.id, 16, 3), Padded(r.startValue, 16, 4), Padded(r.endValue, 16, 4),
               Padded(r.exitValue, 16, 4), Digits(r.period, 10),
               if withTotal then "#" + Digits(r.total, 10) else "")
  }

  function PrintEntries(requests: seq<Request>, withTotal: seq<bool>): (r: seq<string>)
    requires |requests| == |withTotal|
    ensures |r| == |requests| && forall i :: 0 <= i < |r| ==> r[i] == PrintEntry(requests[i], withTotal[i])
  {
    seq(|requests|, i requires 0 <= i < |requests| => PrintEntry(requests[i], withTotal[i]))
  }

  function AllSome(requests: seq<Request>): (r: seq<Option<Request>>)
    ensures |r| == |requests| && forall i :: 0 <= i < |r| ==> r[i] == Some(requests[i])
  {
    seq(|requests|, i requires 0 <= i < |requests| => Some(requests[i]))
  }

  const WIGGLE := "WIGGLE"

  function PrintWiggle(requests: seq<Request>, withTotal: seq<bool>): string
    requires |requests| == |withTotal|
  {
    WIGGLE + ("|" + Joined(PrintEntries(requests, withTotal)))
  }

  const TAIL_FORMAT := Hash(Number(10, U32, End))

  lemma Join2(a: nat, b: nat, x: seq<nat>)
    ensures [a] + ([b] + x) == [a, b] + x
  {
  }

  /** Two hexadecimal fields and a '#', in front of anything. */
  lemma TwoHexFields(la: nat, lb: nat, f: Format, a: string, b: string, rest: string)
    requires a != "" && b != "" && AllDigits(a, 16) && AllDigits(b, 16)
    ensures Sscanf(Number(16, la, Hash(Number(16, lb, Hash(f)))), a + ("#" + (b + ("#" + rest))))
         == [Wrapped(Numeral(a, 16), la), Wrapped(Numeral(b, 16), lb)] + Sscanf(f, rest)
  {
    SscanfField(16, la, Number(16, lb, Hash(f)), a, b + ("#" + rest));
    SscanfField(16, lb, f, b, rest);
    Join2(Wrapped(Numeral(a, 16), la), Wrapped(Numeral(b, 16), lb), Sscanf(f, rest));
  }

  lemma Join5(a: nat, b: nat, c: nat, d: nat, e: nat, x: seq<nat>)
    ensures [a, b] + ([c, d] + ([e] + x)) == [a, b, c, d, e] + x
  {
  }

  lemma ScanFive(a: string, b: string, c: string, d: string, e: string, tail: string)
    requires a != "" && b != "" && c != "" && d != "" && e != ""
    requires AllDigits(a, 16) && AllDigits(b, 16) && AllDigits(c, 16) && AllDigits(d, 16) && AllDigits(e, 10)
    requires tail != "" ==> tail[0] == '#'
    ensures Sscanf(WIGGLE_FORMAT, FiveFields(a, b, c, d, e, tail))
         == [Numeral(a, 16) % U32, Numeral(b, 16) % U16, Numeral(c, 16) % U16, Numeral(d, 16) % U16,
             Numeral(e, 10) % U32] + Sscanf(TAIL_FORMAT, tail)
  {
    var last := Number(10, U32, TAIL_FORMAT);
    var middle := Number(16, U16, Hash(Number(16, U16, Hash(last))));
    TwoHexFields(U32, U16, middle, a, b, c + ("#" + (d + ("#" + (e + tail)))));
    TwoHexFields(U16, U16, last, c, d, e + tail);
    SscanfNumber(10, U32, TAIL_FORMAT, e, tail);
    Join5(Numeral(a, 16) % U32, Numeral(b, 16) % U16, Numeral(c, 16) % U16, Numeral(d, 16) % U16,
          Numeral(e, 10) % U32, Sscanf(TAIL_FORMAT, tail));
  }

  lemma ScanTail(d: string)
    requires d != "" && AllDigits(d, 10)
    ensures Sscanf(TAIL_FORMAT, "#" + d) == [Numeral(d, 10) % U32]
  {
    assert ("#" + d)[1..] == d;
    SscanfLast(10, U32, End, d);
  }

  lemma InRange(r: Request)
    requires Printable(r)
    ensures r.id % U32 == r.id && r.startValue % U16 == r.startValue && r.endValue % U16 == r.endValue
    ensures r.exitValue % U16 == r.exitValue && r.period % U32 == r.period && r.total % U32 == r.total
  {
  }

  /** Printing an entry and parsing it gives the request back. */
  lemma EntryRoundTrip(r: Request, withTotal: bool)
    requires Printable(r) && (withTotal || r.total == 0)
    ensures ParseEntry(PrintEntry(r, withTotal)) == Some(r)
  {
    var tail := if withTotal then "#" + Digits(r.total, 10) else "";
    DigitsNumeral(r.period, 10);
    DigitsNumeral(r.total, 10);
    ScanFive(Padded(r.id, 16, 3), Padded(r.startValue, 16, 4), Padded(r.endValue, 16, 4),
             Padded(r.exitValue, 16, 4), Digits(r.period, 10), tail);
    ScanTail(Digits(r.total, 10));
    InRange(r);
  }

  lemma EntryIsToken(r: Request, withTotal: bool)
    ensures PrintEntry(r, withTotal) != "" && '|' !in PrintEntry(r, withTotal)
  {
  }

  lemma Differs(text: string, word: string)
    requires text != "" && word != "" && text[0] != word[0]
    ensures text != word && !(word <= text)
  {
  }

  lemma PassesEarlyHandlers(text: string)
    requires text != "" && text[0] != 'R' && text[0] != 'C' && text[0] != 'A' && text[0] != 'S'
    ensures Classify(text) == ClassifyRest(text)
  {
    Differs(text, "READ-DISABLE");
    Differs(text, "READ-ENABLE");
    Differs(text, "CAN1|");
    Differs(text, "ABORT#8765");
    Differs(text, "STATE#");
    Differs(text, "SET_VALVE");
  }

  /** A text that begins with WIGGLE and a bar is a WIGGLE command with the tokens behind the bar. */
  lemma {:induction false} ClassifyWiggle(rest: string)
    ensures var text := WIGGLE + ("|" + rest);
            Classify(text) == WiggleStart(Entries(text)) && Arguments(text) == Tokens(rest)
  {
    var text := WIGGLE + ("|" + rest);
    assert text[0] == 'W' && text[6] == '|' && "WIGGLE_STOP"[6] == '_';
    PassesEarlyHandlers(text);
    assert text[..6] == WIGGLE;
    TokensFront(WIGGLE, "|" + rest);
    assert ("|" + rest)[1..] == rest;
  }

  /** Printing requests as a WIGGLE command and recognising the text gives the requests back. */
  lemma {:induction false} WiggleRoundTrip(requests: seq<Request>, withTotal: seq<bool>)
    requires |requests| == |withTotal|
    requires forall i :: 0 <= i < |requests| ==> Printable(requests[i]) && (withTotal[i] || requests[i].total == 0)
    ensures Classify(PrintWiggle(requests, withTotal)) == WiggleStart(AllSome(requests))
  {
    var parts := PrintEntries(requests, withTotal);
    forall i | 0 <= i < |parts| ensures parts[i] != "" && '|' !in parts[i] {
      EntryIsToken(requests[i], withTotal[i]);
    }
    TokensOfJoined(parts);
    ClassifyWiggle(Joined(parts));
    forall i | 0 <= i < |parts| ensures ParseEntry(parts[i]) == Some(requests[i]) {
      EntryRoundTrip(requests[i], withTotal[i]);
    }
    assert Entries(PrintWiggle(requests, withTotal)) == AllSome(requests);
  }

  /** A printed FIRE command is recognised with its blocks. */
  lemma {:induction false} ClassifyFire(blocks: seq<FiringProtocol.Block>, withWait: seq<bool>)
    requires 1 <= |blocks| == |withWait| <= FireParser.MAX_FIRING_BLOCKS
    requires forall i :: 0 <= i < |blocks| ==>
               FireParser.Printable(blocks[i]) && (withWait[i] || blocks[i].waitMs == 0)
    ensures Classify(FireParser.PrintCommand(blocks, withWait)) == Fire(Some(blocks))
  {
    var text := FireParser.PrintCommand(blocks, withWait);
    FireParser.FireRoundTrip(blocks, withWait);
    assert text[0] == 'F';
    PassesEarlyHandlers(text);
    Differs(text, "WIGGLE_STOP");
    Differs(text, "WIGGLE");
    Differs(text, "DROWN#8765");
    assert text[..9] == "FIRE#8765";
  }

  function StateText(mode: Mode): string {
    if mode == Prechilling then "STATE#PRECHILLING" else "STATE#HOTFIRE"
  }

  lemma ClassifyState(mode: Mode)
    ensures Classify(StateText(mode)) == SetState(Some(mode))
  {
    var text := StateText(mode);
    assert text[0] == 'S';
    Differs(text, "READ-DISABLE");
    Differs(text, "READ-ENABLE");
    Differs(text, "CAN1|");
    Differs(text, "ABORT#8765");
    assert text[..6] == "STATE#";
    assert text[6..] == if mode == Prechilling then "PRECHILLING" else "HOTFIRE";
    assert mode == Hotfire ==> text[6] != "PRECHILLING"[0];
  }

  const DROWN := "DROWN#8765"

  lemma ClassifyDrown()
    ensures Classify(DROWN) == Drown
  {
    assert DROWN[0] == 'D';
    PassesEarlyHandlers(DROWN);
    Differs(DROWN, "WIGGLE_STOP");
    Differs(DROWN, "WIGGLE");
  }

  function ValveName(change: ValveChange): string {
    match change
    case MainId(_) => "LOX_MAIN"
    case VentId(_) => "LOX_VENT"
    case MainOpen(_) => "LOX_MAIN_ANGLE_OPEN"
    case VentClose(_) => "LOX_VENT_ANGLE_CLOSE"
  }

  function ValveValue(change: ValveChange): nat {
    match change
    case MainId(id) => id
    case VentId(id) => id
    case MainOpen(angle) => angle
    case VentClose(angle) => angle
  }

  predicate InValveRange(change: ValveChange) {
    ValveValue(change) <= if change.MainId? || change.VentId? then 0x7FF else 0x0B4
  }

  const SET_VALVE := "SET_VALVE"

  /** A SET_VALVE command as the command reference writes it. */
  function PrintValve(change: ValveChange): string {
    SET_VALVE + ("#" + (ValveName(change) + ("#" + Digits(ValveValue(change), 16))))
  }

  lemma {:induction false} NameAndDigits(name: string, digits: string)
    requires '#' !in name && '#' !in digits
    ensures FireParser.Fields(name + ("#" + digits)) == [name, digits]
  {
    FireParser.FieldsSplit(name, digits);
    FireParser.FieldsWhole(digits);
  }

  lemma {:induction false} ScanHex(value: nat)
    requires value < U32
    ensures Sscanf(Number(16, U32, End), Digits(value, 16)) == [value]
  {
    SscanfLast(16, U32, End, Digits(value, 16));
    DigitsNumeral(value, 16);
  }

  lemma {:induction false} ValveFieldsOf(text: string, name: string, digits: string, value: nat)
    requires FireParser.Fields(text) == [name, digits] && 1 <= |name| <= 31
    requires Sscanf(Number(16, U32, End), digits) == [value]
    ensures ValveFields("#" + text) == Some(ValveText(name, value))
  {
    assert ("#" + text)[1..] == text;
  }

  /** A name, a '#' and a hexadecimal number are scanned as name and number. */
  lemma {:induction false} ScanValve(name: string, value: nat)
    requires '#' !in name && 1 <= |name| <= 31 && value < U32
    ensures ValveFields("#" + (name + ("#" + Digits(value, 16)))) == Some(ValveText(name, value))
  {
    var digits := Digits(value, 16);
    NameAndDigits(name, digits);
    ScanHex(value);
    ValveFieldsOf(name + ("#" + digits), name, digits, value);
  }

  lemma NamesDiffer(change: ValveChange)
    ensures '#' !in ValveName(change) && 1 <= |ValveName(change)| <= 31
    ensures ValveName(change) == "LOX_MAIN" <==> change.MainId?
    ensures ValveName(change) == "LOX_VENT" <==> change.VentId?
    ensures ValveName(change) == "LOX_MAIN_ANGLE_OPEN" <==> change.MainOpen?
    ensures ValveName(change) == "LOX_VENT_ANGLE_CLOSE" <==> change.VentClose?
  {
    assert "LOX_MAIN"[4] == 'M' && "LOX_VENT"[4] == 'V';
  }

  lemma ClassifySetValve(rest: string)
    ensures Classify(SET_VALVE + rest) == SetValve(ParseValve(rest))
  {
    var text := SET_VALVE + rest;
    assert text[0] == 'S' && text[1] == 'E' && "STATE#"[1] == 'T';
    Differs(text, "READ-DISABLE");
    Differs(text, "READ-ENABLE");
    Differs(text, "CAN1|");
    Differs(text, "ABORT#8765");
    assert text[..9] == SET_VALVE && text[9..] == rest;
  }

  /** Printing a valve change and recognising the text gives it back iff it is in range, else an error. */
  lemma {:induction false} ValveRoundTrip(change: ValveChange)
    requires ValveValue(change) < U32
    ensures Classify(PrintValve(change)) == SetValve(if InValveRange(change) then Some(change) else None)
  {
    NamesDiffer(change);
    ScanValve(ValveName(change), ValveValue(change));
    ClassifySetValve("#" + (ValveName(change) + ("#" + Digits(ValveValue(change), 16))));
  }

  // ---------------------------------------------------------------- recognising texts

  const ABORT := "ABORT#8765"
  const CAN_PREFIX := "CAN1|"

  /** The prefix of a CAN command is taken off once, and the rest is what it means. */
  lemma PrefixIsStripped(text: string)
    ensures Classify(CAN_PREFIX + text) == ClassifyNormalized(text)
    ensures text != "READ-DISABLE" && text != "READ-ENABLE" && !(CAN_PREFIX <= text) ==>
              Classify(CAN_PREFIX + text) == Classify(text)
  {
    var whole := CAN_PREFIX + text;
    Differs(whole, "READ-DISABLE");
    Differs(whole, "READ-ENABLE");
    assert whole[..5] == CAN_PREFIX && whole[5..] == text;
  }

  /** ABORT#8765, with or without the prefix, is an abort, and nothing else is. */
  lemma ClassifyAbort(text: string)
    ensures Classify(text) == Abort <==> text == ABORT || text == CAN_PREFIX + ABORT
  {
    Differs(ABORT, "READ-DISABLE");
    Differs(ABORT, "READ-ENABLE");
    Differs(ABORT, CAN_PREFIX);
    PrefixIsStripped(ABORT);
    if CAN_PREFIX <= text {
      assert text == CAN_PREFIX + text[5..];
    }
  }

  /** A printed raw command is recognised as that command. */
  lemma {:induction false} ClassifyRaw(raw: CanListener.RawCommand)
    requires raw.id < U32 && raw.value < U16 && (raw.duration.Some? ==> raw.duration.value < U16)
    ensures Classify(CanListener.PrintRaw(raw)) == Raw(raw)
  {
    CanListener.RawRoundTrip(raw);
    LowerIsRaw(CanListener.PrintRaw(raw));
  }

  /** Every command word begins with an upper-case letter. */
  lemma {:induction false} LowerIsRaw(text: string)
    requires text != "" && IsLower(text[0])
    ensures Classify(text)
         == match CanListener.ParseRaw(text) { case None => Invalid case Some(raw) => Raw(raw) }
  {
    PassesEarlyHandlers(text);
    Differs(text, "WIGGLE_STOP");
    Differs(text, "WIGGLE");
    Differs(text, "DROWN#8765");
    Differs(text, "FIRE#8765");
  }

  const WIGGLE_STOP := "WIGGLE_STOP"

  function PrintIds(ids: seq<nat>): (r: seq<string>)
    ensures |r| == |ids| && forall i :: 0 <= i < |r| ==> r[i] == Padded(ids[i], 16, 3)
  {
    seq(|ids|, i requires 0 <= i < |ids| => Padded(ids[i], 16, 3))
  }

  function PrintStop(ids: seq<nat>): string { WIGGLE_STOP + ("|" + Joined(PrintIds(ids))) }

  lemma {:induction false} ClassifyStop(rest: string)
    ensures var text := WIGGLE_STOP + ("|" + rest);
            Classify(text) == WiggleStop(StopIds(text)) && Arguments(text) == Tokens(rest)
  {
    var text := WIGGLE_STOP + ("|" + rest);
    assert text[0] == 'W';
    PassesEarlyHandlers(text);
    assert text[..11] == WIGGLE_STOP;
    TokensFront(WIGGLE_STOP, "|" + rest);
    assert ("|" + rest)[1..] == rest;
  }

  lemma {:induction false} ParsePrintedId(id: nat)
    requires id < U32
    ensures ParseId(Padded(id, 16, 3)) == Some(id)
  {
    ScanDigits(Padded(id, 16, 3), id);
  }

  lemma {:induction false} ScanDigits(digits: string, value: nat)
    requires digits != "" && AllDigits(digits, 16) && Numeral(digits, 16) == value < U32
    ensures Sscanf(Number(16, U32, End), digits) == [value]
  {
    SscanfLast(16, U32, End, digits);
    assert value % U32 == value;
  }

  /** Printing ids as a WIGGLE_STOP command and recognising the text gives the ids back. */
  lemma {:induction false} StopRoundTrip(ids: seq<nat>)
    requires forall i :: 0 <= i < |ids| ==> ids[i] < U32
    ensures Classify(PrintStop(ids)).WiggleStop?
    ensures var parsed := Classify(PrintStop(ids)).ids;
            |parsed| == |ids| && forall i :: 0 <= i < |ids| ==> parsed[i] == Some(ids[i])
  {
    var parts := PrintIds(ids);
    TokensOfJoined(parts);
    ClassifyStop(Joined(parts));
    forall i | 0 <= i < |parts| ensures ParseId(parts[i]) == Some(ids[i]) {
      ParsePrintedId(ids[i]);
    }
  }
}
