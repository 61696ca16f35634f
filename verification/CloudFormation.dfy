/** Following a CloudFormation stack through the messages of a queue: the key='value' message format, what a message
    says about the stack, and the loop that consumes messages until the stack is decided. */
module CloudFormation {
  import opened Options

  // The message format

  type Fields = map<string, string>

  /** strings.Split for a one-character separator. */
  function Split(s: string, sep: char): (parts: seq<string>)
    ensures parts != []
  {
    if s == "" then [""]
    else
      var rest := Split(s[1..], sep);
      if s[0] == sep then [""] + rest else [[s[0]] + rest[0]] + rest[1..]
  }

  /** strings.SplitN(line, "=", 2): the parts before and after the first '=', if there is one. */
  function Cut(line: string): Option<(string, string)> {
    if line == "" then None
    else if line[0] == '=' then Some(("", line[1..]))
    else
      match Cut(line[1..])
      case None => None
      case Some((key, value)) => Some(([line[0]] + key, value))
  }

  function TrimLeft(s: string): string {
    if s != "" && s[0] == '\'' then TrimLeft(s[1..]) else s
  }

  function TrimRight(s: string): string {
    if s != "" && s[|s| - 1] == '\'' then TrimRight(s[..|s| - 1]) else s
  }

  function Trim(s: string): string {
    TrimRight(TrimLeft(s))
  }

  function AddLine(cf: Fields, line: string): Fields {
    match Cut(line)
    case None => cf
    case Some((key, value)) => cf[key := Trim(value)]
  }

  function AddLines(cf: Fields, lines: seq<string>): Fields {
    if lines == [] then cf else AddLine(AddLines(cf, lines[..|lines| - 1]), lines[|lines| - 1])
  }

  /** The fields of a message, or None when it has none. */
  function Parse(message: string): Option<Fields> {
    var cf := AddLines(map[], Split(message, '\n'));
    if cf == map[] then None else Some(cf)
  }

  method ParseCloudFormation(message: string) returns (cf: Option<Fields>)
    ensures cf == Parse(message)
  {
    var fields: Fields := map[];
    var lines := Split(message, '\n');
    for i := 0 to |lines|
      invariant fields == AddLines(map[], lines[..i])
    {
      assert lines[..i + 1][..i] == lines[..i];
      var cut := Cut(lines[i]);
      if cut.None? {
        continue;
      }
      fields := fields[cut.value.0 := Trim(cut.value.1)];
    }
    assert lines[..|lines|] == lines;
    if fields == map[] {
      return None;
    }
    return Some(fields);
  }

  // Printing and parsing

  datatype Entry = Entry(key: string, value: string)

  function PrintEntry(e: Entry): string {
    e.key + "='" + e.value + "'"
  }

  /** One line per entry. */
  function Print(entries: seq<Entry>): string {
    if entries == [] then "" else PrintEntry(entries[0]) + "\n" + Print(entries[1..])
  }

  /** The map of the entries; a later entry for the same key wins. */
  function MapOf(entries: seq<Entry>): Fields {
    if entries == [] then map[]
    else
      var last := entries[|entries| - 1];
      MapOf(entries[..|entries| - 1])[last.key := last.value]
  }

  predicate Printable(key: string, value: string) {
    && '=' !in key && '\n' !in key && '\n' !in value
    && (value != "" ==> value[0] != '\'' && value[|value| - 1] != '\'')
  }

  lemma {:induction false} SplitWithout(s: string, sep: char)
    requires sep !in s
    ensures Split(s, sep) == [s]
  {
    if s == "" {
    } else {
      assert s[0] in s;
      assert forall c | c in s[1..] :: c in s;
      SplitWithout(s[1..], sep);
      assert [s[0]] + s[1..] == s;
    }
  }

  lemma {:induction false} SplitLine(line: string, rest: string, sep: char)
    requires sep !in line
    ensures Split(line + [sep] + rest, sep) == [line] + Split(rest, sep)
  {
    var s := line + [sep] + rest;
    if line == "" {
      assert s[0] == sep && s[1..] == rest;
    } else {
      assert line[0] in line;
      assert forall c | c in line[1..] :: c in line;
      SplitLine(line[1..], rest, sep);
      assert s[1..] == line[1..] + [sep] + rest;
      assert [line[0]] + line[1..] == line;
    }
  }

  lemma {:induction false} CutKey(key: string, value: string)
    requires '=' !in key
    ensures Cut(key + "=" + value) == Some((key, value))
  {
    var line := key + "=" + value;
    if key == "" {
      assert line[1..] == value;
    } else {
      assert key[0] in key;
      assert forall c | c in key[1..] :: c in key;
      CutKey(key[1..], value);
      assert line[1..] == key[1..] + "=" + value;
      assert [key[0]] + key[1..] == key;
    }
  }

  lemma TrimQuoted(value: string)
    requires value != "" ==> value[0] != '\'' && value[|value| - 1] != '\''
    ensures Trim("'" + value + "'") == value
  {
    var s := "'" + value + "'";
    assert s[1..] == value + "'";
    if value == "" {
      assert s == "''" && s[1..][1..] == "";
      assert TrimLeft(s[1..]) == "";
    } else {
      assert TrimLeft(s) == value + "'" by {
        assert (value + "'")[0] == value[0];
      }
      assert (value + "'")[..|value|] == value && (value + "'")[|value|] == '\'';
      assert TrimRight(value) == value;
    }
  }

  lemma PrintedLine(cf: Fields, e: Entry)
    requires Printable(e.key, e.value)
    ensures '\n' !in PrintEntry(e) && AddLine(cf, PrintEntry(e)) == cf[e.key := e.value]
  {
    assert PrintEntry(e) == e.key + "=" + ("'" + e.value + "'");
    CutKey(e.key, "'" + e.value + "'");
    TrimQuoted(e.value);
  }

  lemma {:induction false} AddLinesConcat(cf: Fields, a: seq<string>, b: seq<string>)
    ensures AddLines(cf, a + b) == AddLines(AddLines(cf, a), b)
  {
    if b == [] {
      assert a + b == a;
    } else {
      AddLinesConcat(cf, a, b[..|b| - 1]);
      assert (a + b)[..|a + b| - 1] == a + b[..|b| - 1];
    }
  }

  lemma {:induction false} MapOfFirst(first: Entry, rest: seq<Entry>)
    ensures MapOf([first] + rest) == map[first.key := first.value] + MapOf(rest)
  {
    if rest == [] {
      assert [first] + rest == [first] && [first][..0] == [];
    } else {
      MapOfFirst(first, rest[..|rest| - 1]);
      assert ([first] + rest)[..|rest|] == [first] + rest[..|rest| - 1];
    }
  }

  lemma {:induction false} PrintedLines(cf: Fields, entries: seq<Entry>)
    requires forall e | e in entries :: Printable(e.key, e.value)
    ensures AddLines(cf, Split(Print(entries), '\n')) == cf + MapOf(entries)
    decreases |entries|
  {
    hide Split, AddLines, PrintEntry;
    if entries == [] {
      NothingPrinted(cf);
    } else {
      var first, rest := entries[0], entries[1..];
      assert entries == [first] + rest;
      assert Print(entries) == PrintEntry(first) + ['\n'] + Print(rest);
      hide Print, MapOf;
      PrintedFirst(cf, first, rest);
      PrintedLines(cf[first.key := first.value], rest);
      MapOfFirst(first, rest);
    }
  }

  lemma NothingPrinted(cf: Fields)
    ensures AddLines(cf, Split("", '\n')) == cf
  {
    assert [""][..0] == [];
  }

  lemma PrintedFirst(cf: Fields, first: Entry, rest: seq<Entry>)
    requires Printable(first.key, first.value)
    ensures AddLines(cf, Split(PrintEntry(first) + ['\n'] + Print(rest), '\n')) ==
            AddLines(cf[first.key := first.value], Split(Print(rest), '\n'))
  {
    hide Split, Print, PrintEntry, AddLine, Printable;
    PrintedLine(cf, first);
    SplitLine(PrintEntry(first), Print(rest), '\n');
    AddLinesConcat(cf, [PrintEntry(first)], Split(Print(rest), '\n'));
    assert [PrintEntry(first)][..0] == [];
  }

  /** What parsing can produce at all: every field is printable. */
  lemma {:induction false} ParsedIsPrintable(cf: Fields, lines: seq<string>, key: string)
    requires forall l | l in lines :: '\n' !in l
    requires forall k | k in cf :: Printable(k, cf[k])
    requires key in AddLines(cf, lines)
    ensures Printable(key, AddLines(cf, lines)[key])
  {
    if lines == [] {
    } else {
      var front, last := lines[..|lines| - 1], lines[|lines| - 1];
      assert forall l | l in front :: l in lines;
      assert last in lines;
      CutParts(last);
      if Cut(last).Some? && Cut(last).value.0 == key {
        TrimEnds(Cut(last).value.1);
      } else {
        ParsedIsPrintable(cf, front, key);
      }
    }
  }

  lemma {:induction false} CutParts(line: string)
    ensures Cut(line).Some? ==>
              '=' !in Cut(line).value.0 && line == Cut(line).value.0 + "=" + Cut(line).value.1
  {
    if line == "" || line[0] == '=' {
    } else {
      CutParts(line[1..]);
    }
  }

  lemma TrimEnds(s: string)
    ensures Trim(s) != "" ==> Trim(s)[0] != '\'' && Trim(s)[|Trim(s)| - 1] != '\''
    ensures forall c | c in Trim(s) :: c in s
  {
    TrimLeftEnd(s);
    TrimRightEnd(TrimLeft(s));
  }

  lemma {:induction false} TrimLeftEnd(s: string)
    ensures TrimLeft(s) != "" ==> TrimLeft(s)[0] != '\''
    ensures forall c | c in TrimLeft(s) :: c in s
  {
    if s != "" && s[0] == '\'' {
      TrimLeftEnd(s[1..]);
    }
  }

  lemma {:induction false} TrimRightEnd(s: string)
    ensures TrimRight(s) <= s
    ensures TrimRight(s) != "" ==> TrimRight(s)[|TrimRight(s)| - 1] != '\''
    ensures forall c | c in TrimRight(s) :: c in s
  {
    if s != "" && s[|s| - 1] == '\'' {
      TrimRightEnd(s[..|s| - 1]);
    }
  }

  lemma {:induction false} SplitParts(s: string, sep: char)
    ensures forall part | part in Split(s, sep) :: sep !in part
  {
    if s == "" {
    } else {
      SplitParts(s[1..], sep);
      var rest := Split(s[1..], sep);
      assert rest[0] in rest;
      forall part | part in Split(s, sep)
        ensures sep !in part
      {
        if part !in rest {
          assert part == "" || part == [s[0]] + rest[0];
        }
      }
    }
  }

  ghost predicate DistinctKeys(entries: seq<Entry>) {
    forall i, j | 0 <= i < j < |entries| :: entries[i].key != entries[j].key
  }

  lemma {:induction false} MapOfHolds(entries: seq<Entry>, i: nat)
    requires DistinctKeys(entries) && i < |entries|
    ensures entries[i].key in MapOf(entries) && MapOf(entries)[entries[i].key] == entries[i].value
  {
    if i < |entries| - 1 {
      MapOfHolds(entries[..|entries| - 1], i);
    }
  }

  /** Printing a map (as any list of its entries) and parsing the result gives the map back if and only if every entry
      is printable: no '=' or newline in the key, no newline in the value, no quote at either end of the value. */
  lemma RoundTrip(entries: seq<Entry>)
    requires entries != [] && DistinctKeys(entries)
    ensures Parse(Print(entries)) == Some(MapOf(entries)) <==> forall e | e in entries :: Printable(e.key, e.value)
  {
    var lines := Split(Print(entries), '\n');
    if forall e | e in entries :: Printable(e.key, e.value) {
      PrintedLines(map[], entries);
      MapOfHolds(entries, 0);
      assert map[] + MapOf(entries) == MapOf(entries);
    } else if Parse(Print(entries)) == Some(MapOf(entries)) {
      SplitParts(Print(entries), '\n');
      forall i | 0 <= i < |entries|
        ensures Printable(entries[i].key, entries[i].value)
      {
        MapOfHolds(entries, i);
        ParsedIsPrintable(map[], lines, entries[i].key);
      }
      assert false;
    }
  }

  /** Of several lines for one key the last one counts, and a line without '=' counts for nothing. */
  lemma DuplicatesAndNoise(entries: seq<Entry>, before: seq<string>, noise: string, after: seq<string>)
    ensures (forall e | e in entries :: Printable(e.key, e.value)) ==>
              AddLines(map[], Split(Print(entries), '\n')) == MapOf(entries)
    ensures '=' !in noise ==> AddLines(map[], before + [noise] + after) == AddLines(map[], before + after)
  {
    if forall e | e in entries :: Printable(e.key, e.value) {
      PrintedLines(map[], entries);
      assert map[] + MapOf(entries) == MapOf(entries);
    }
    if '=' !in noise {
      CutParts(noise);
      AddLinesConcat(map[], before + [noise], after);
      AddLinesConcat(map[], before, [noise]);
      AddLinesConcat(map[], before, after);
      assert [noise][..0] == [];
    }
  }

  // What a message says

  datatype StackState = Ongoing | CreateFailed | RolledBack | Created

  function FieldOr(cf: Fields, key: string): string {
    if key in cf then cf[key] else ""
  }

  function StateOf(cf: Fields, stack: string): StackState {
    if FieldOr(cf, "ResourceStatus") == "CREATE_FAILED" then CreateFailed
    else if
      FieldOr(cf, "ResourceType") == "AWS::CloudFormation::Stack" && FieldOr(cf, "LogicalResourceId") == stack
    then
      if FieldOr(cf, "ResourceStatus") == "CREATE_COMPLETE" then Created
      else if FieldOr(cf, "ResourceStatus") == "ROLLBACK_COMPLETE" then RolledBack
      else Ongoing
    else Ongoing
  }

  // The queue

  /** A queue message: whether its body decodes and holds a text, and whether it can be deleted. */
  datatype Message = Message(receipt: nat, body: Body, deletable: bool)

  datatype Body = Undecodable | NoText | Text(text: string)

  datatype Batch = Received(messages: seq<Message>) | ReceiveFailed

  datatype Outcome =
    | Waiting
    | Complete(fields: Fields)
    | Rollback(reason: string, fields: Fields)
    | ReceiveError | DecodeError | DeleteError | ParseError

  /** The consumer: the reason of the last failed resource, the messages deleted and the progress reported so far. */
  datatype Consumer = Consumer(reason: string, deleted: seq<nat>, reported: seq<Fields>, outcome: Outcome)

  const START := Consumer("", [], [], Waiting)

  function ReadText(c: Consumer, stack: string, text: string): Consumer {
    match Parse(text)
    case None => c.(outcome := ParseError)
    case Some(cf) =>
      match StateOf(cf, stack)
      case CreateFailed => c.(reason := FieldOr(cf, "ResourceStatusReason"), reported := c.reported + [cf])
      case RolledBack => c.(outcome := Rollback(c.reason, cf))
      case Created => c.(outcome := Complete(cf))
      case Ongoing => c.(reported := c.reported + [cf])
  }

  function Read(c: Consumer, stack: string, m: Message): Consumer {
    if !c.outcome.Waiting? then c
    else if m.body.Undecodable? then c.(outcome := DecodeError)
    else if !m.deletable then c.(outcome := DeleteError)
    else
      var c' := c.(deleted := c.deleted + [m.receipt]);
      if m.body.NoText? then c' else ReadText(c', stack, m.body.text)
  }

  function ReadAll(c: Consumer, stack: string, messages: seq<Message>): Consumer {
    if messages == [] then c
    else Read(ReadAll(c, stack, messages[..|messages| - 1]), stack, messages[|messages| - 1])
  }

  /** All messages of the batches received before the first failed receive. */
  function Stream(batches: seq<Batch>): seq<Message> {
    if batches == [] || batches[0].ReceiveFailed? then [] else batches[0].messages + Stream(batches[1..])
  }

  predicate Broken(batches: seq<Batch>) {
    batches != [] && (batches[0].ReceiveFailed? || Broken(batches[1..]))
  }

  /** What consuming comes to: reading the stream, and then the receive error if nothing was decided before it. */
  function Consume(stack: string, batches: seq<Batch>): Consumer {
    var c := ReadAll(START, stack, Stream(batches));
    if Broken(batches) && c.outcome.Waiting? then c.(outcome := ReceiveError) else c
  }

  /** The receive loop on the batches that have arrived; the outcome is Waiting while it polls for more. */
  method ConsumeSQS(stack: string, batches: seq<Batch>) returns (c: Consumer)
    ensures c == Consume(stack, batches)
  {
    hide Read, ReadAll, Parse;
    c := START;
    NothingRead(stack);
    for i := 0 to |batches|
      invariant c.outcome.Waiting? && c == ReadAll(START, stack, Stream(batches[..i]))
      invariant !Broken(batches[..i])
    {
      StreamSplit(batches, i);
      var batch := batches[i];
      if batch.ReceiveFailed? {
        c := c.(outcome := ReceiveError);
        return;
      }
      ghost var before := Stream(batches[..i]);
      assert batch.messages[..0] == [] && before + [] == before;
      for j := 0 to |batch.messages|
        invariant c.outcome.Waiting? && c == ReadAll(START, stack, before + batch.messages[..j])
      {
        var m := batch.messages[j];
        c := ReadMessage(c, stack, m);
        assert before + batch.messages[..j + 1] == (before + batch.messages[..j]) + [m];
        ReadSnoc(START, stack, before + batch.messages[..j], m);
        if !c.outcome.Waiting? {
          Decided(stack, batches, i, j + 1);
          return;
        }
      }
      assert batch.messages[..|batch.messages|] == batch.messages;
    }
    assert batches[..|batches|] == batches;
  }

  method ReadMessage(before: Consumer, stack: string, m: Message) returns (c: Consumer)
    requires before.outcome.Waiting?
    ensures c == Read(before, stack, m)
  {
    c := before;
    if m.body.Undecodable? {
      return c.(outcome := DecodeError);
    }
    if !m.deletable {
      return c.(outcome := DeleteError);
    }
    c := c.(deleted := c.deleted + [m.receipt]);
    if !m.body.Text? {
      return;
    }
    var cf := ParseCloudFormation(m.body.text);
    if cf.None? {
      return c.(outcome := ParseError);
    }
    var state := StateOf(cf.value, stack);
    if state == CreateFailed {
      c := c.(reason := FieldOr(cf.value, "ResourceStatusReason"));
    }
    if state == RolledBack {
      return c.(outcome := Rollback(c.reason, cf.value));
    }
    if state == Created {
      return c.(outcome := Complete(cf.value));
    }
    c := c.(reported := c.reported + [cf.value]);
  }

  lemma NothingRead(stack: string)
    ensures ReadAll(START, stack, []) == START
  {
  }

  lemma ReadSnoc(c: Consumer, stack: string, messages: seq<Message>, m: Message)
    ensures ReadAll(c, stack, messages + [m]) == Read(ReadAll(c, stack, messages), stack, m)
  {
    assert (messages + [m])[..|messages|] == messages;
  }

  lemma {:induction false} StreamSplit(batches: seq<Batch>, i: nat)
    requires i < |batches| && !Broken(batches[..i])
    ensures batches[i].ReceiveFailed? ==> Broken(batches) && Stream(batches) == Stream(batches[..i])
    ensures batches[i].Received? ==>
              && !Broken(batches[..i + 1])
              && Stream(batches[..i + 1]) == Stream(batches[..i]) + batches[i].messages
              && Stream(batches[..i + 1]) <= Stream(batches)
  {
    if i == 0 {
      assert batches[..1][1..] == [] && batches[..0] == [];
    } else {
      assert batches[..i][1..] == batches[1..][..i - 1] && batches[..i + 1][1..] == batches[1..][..i];
      StreamSplit(batches[1..], i - 1);
    }
  }

  lemma {:induction false} DecidedForGood(c: Consumer, stack: string, a: seq<Message>, b: seq<Message>)
    requires !ReadAll(c, stack, a).outcome.Waiting?
    ensures ReadAll(c, stack, a + b) == ReadAll(c, stack, a)
  {
    if b == [] {
      assert a + b == a;
    } else {
      DecidedForGood(c, stack, a, b[..|b| - 1]);
      assert (a + b)[..|a + b| - 1] == a + b[..|b| - 1];
    }
  }

  lemma Decided(stack: string, batches: seq<Batch>, i: nat, j: nat)
    requires i < |batches| && !Broken(batches[..i]) && batches[i].Received? && j <= |batches[i].messages|
    requires !ReadAll(START, stack, Stream(batches[..i]) + batches[i].messages[..j]).outcome.Waiting?
    ensures Consume(stack, batches) == ReadAll(START, stack, Stream(batches[..i]) + batches[i].messages[..j])
  {
    StreamSplit(batches, i);
    var read := Stream(batches[..i]) + batches[i].messages[..j];
    assert read <= Stream(batches);
    assert Stream(batches) == read + Stream(batches)[|read|..];
    DecidedForGood(START, stack, read, Stream(batches)[|read|..]);
  }

  // What the stream decides, field by field

  function Receipts(messages: seq<Message>): seq<nat> {
    seq(|messages|, i requires 0 <= i < |messages| => messages[i].receipt)
  }

  predicate Has(cf: Fields, key: string, value: string) {
    key in cf && cf[key] == value
  }

  /** The fields say that this customer's own stack is complete or rolled back. */
  predicate DecidesFor(cf: Fields, customer: string) {
    && Has(cf, "ResourceType", "AWS::CloudFormation::Stack")
    && Has(cf, "LogicalResourceId", "opsee-stack-" + customer)
    && (Has(cf, "ResourceStatus", "CREATE_COMPLETE") || Has(cf, "ResourceStatus", "ROLLBACK_COMPLETE"))
  }

  /** The message can be read and deleted, and its text, if any, parses and decides nothing. */
  predicate Passing(m: Message, customer: string) {
    m.deletable && !m.body.Undecodable? &&
    (m.body.Text? ==> Parse(m.body.text).Some? && !DecidesFor(Parse(m.body.text).value, customer))
  }

  predicate SaysFailed(m: Message) {
    m.body.Text? && Parse(m.body.text).Some? && Has(Parse(m.body.text).value, "ResourceStatus", "CREATE_FAILED")
  }

  /** The reason the last failed resource gave, empty if it gave none or none failed. */
  function FailedReason(messages: seq<Message>): string {
    if messages == [] then ""
    else
      var last := messages[|messages| - 1];
      if SaysFailed(last) then
        var cf := Parse(last.body.text).value;
        if "ResourceStatusReason" in cf then cf["ResourceStatusReason"] else ""
      else FailedReason(messages[..|messages| - 1])
  }

  /** The fields of every text, in order. */
  function Texts(messages: seq<Message>): seq<Fields> {
    if messages == [] then []
    else
      var last := messages[|messages| - 1];
      Texts(messages[..|messages| - 1]) +
      if last.body.Text? && Parse(last.body.text).Some? then [Parse(last.body.text).value] else []
  }

  lemma StateByFields(cf: Fields, customer: string)
    ensures var state, stack := StateOf(cf, "opsee-stack-" + customer), "opsee-stack-" + customer;
            && (state == CreateFailed <==> Has(cf, "ResourceStatus", "CREATE_FAILED"))
            && (state == Created <==> DecidesFor(cf, customer) && Has(cf, "ResourceStatus", "CREATE_COMPLETE"))
            && (state == RolledBack <==> DecidesFor(cf, customer) && Has(cf, "ResourceStatus", "ROLLBACK_COMPLETE"))
  {
  }

  /** Messages that pass are each deleted once, each text is reported, and the last failure's reason is kept. */
  lemma {:induction false} Undecided(customer: string, messages: seq<Message>)
    requires forall m | m in messages :: Passing(m, customer)
    ensures ReadAll(START, "opsee-stack-" + customer, messages) ==
            Consumer(FailedReason(messages), Receipts(messages), Texts(messages), Waiting)
  {
    if messages == [] {
    } else {
      var front, last := messages[..|messages| - 1], messages[|messages| - 1];
      assert last in messages && forall m | m in front :: m in messages;
      Undecided(customer, front);
      assert Receipts(messages) == Receipts(front) + [last.receipt];
      if last.body.Text? {
        StateByFields(Parse(last.body.text).value, customer);
      }
      hide Parse, StateOf, DecidesFor;
    }
  }

  /** The first message that does not pass, and everything before it, is all that counts. */
  lemma FirstToStop(customer: string, batches: seq<Batch>, i: nat)
    requires i < |Stream(batches)| && forall m | m in Stream(batches)[..i] :: Passing(m, customer)
    ensures var stream, stack := Stream(batches), "opsee-stack-" + customer;
            var c := Read(ReadAll(START, stack, stream[..i]), stack, stream[i]);
            !c.outcome.Waiting? ==> Consume(stack, batches) == c
  {
    hide Read, ReadAll;
    var stream, stack := Stream(batches), "opsee-stack-" + customer;
    ReadSnoc(START, stack, stream[..i], stream[i]);
    assert stream[..i + 1] == stream[..i] + [stream[i]];
    assert stream == stream[..i + 1] + stream[i + 1..];
    if !ReadAll(START, stack, stream[..i + 1]).outcome.Waiting? {
      DecidedForGood(START, stack, stream[..i + 1], stream[i + 1..]);
    }
  }

  /** The outcome is that of the first decisive message, whatever comes after it: creation, or a rollback for the reason
      of the latest failed resource before it. Every message up to it was deleted exactly once, and none after it. */
  lemma FirstDecisiveMessageDecides(customer: string, batches: seq<Batch>, i: nat, cf: Fields)
    requires i < |Stream(batches)| && forall m | m in Stream(batches)[..i] :: Passing(m, customer)
    requires var m := Stream(batches)[i]; m.deletable && m.body.Text? && Parse(m.body.text) == Some(cf)
    requires DecidesFor(cf, customer)
    ensures var stream, c := Stream(batches), Consume("opsee-stack-" + customer, batches);
            && c.deleted == Receipts(stream[..i + 1]) && c.reported == Texts(stream[..i])
            && c.outcome == if Has(cf, "ResourceStatus", "CREATE_COMPLETE") then Complete(cf)
                            else Rollback(FailedReason(stream[..i]), cf)
  {
    hide Parse, StateOf, ReadAll, Consume, Read, FailedReason, Texts, Passing, DecidesFor, Stream;
    var stream, stack := Stream(batches), "opsee-stack-" + customer;
    Undecided(customer, stream[..i]);
    ReadDecision(ReadAll(START, stack, stream[..i]), customer, stream[i], cf);
    FirstToStop(customer, batches, i);
    assert Receipts(stream[..i + 1]) == Receipts(stream[..i]) + [stream[i].receipt];
  }

  /** The entries say that this customer's own stack has the status. */
  ghost predicate PrintsStack(entries: seq<Entry>, customer: string, status: string) {
    && DistinctKeys(entries) && (forall e | e in entries :: Printable(e.key, e.value))
    && Entry("ResourceType", "AWS::CloudFormation::Stack") in entries
    && Entry("LogicalResourceId", "opsee-stack-" + customer) in entries
    && Entry("ResourceStatus", status) in entries
  }

  /** From the printed fields to the outcome. After messages that pass, a message printed from entries saying that this
      customer's stack was created completes the stage with those entries; one saying that it was rolled back fails the
      stage with the last failed resource's reason. Every message up to it has been deleted, and every text before it
      reported, whatever follows. */
  lemma PrintedStackDecides(customer: string, batches: seq<Batch>, i: nat, entries: seq<Entry>)
    requires i < |Stream(batches)| && forall m | m in Stream(batches)[..i] :: Passing(m, customer)
    requires Stream(batches)[i].deletable && Stream(batches)[i].body == Text(Print(entries))
    requires PrintsStack(entries, customer, "CREATE_COMPLETE") || PrintsStack(entries, customer, "ROLLBACK_COMPLETE")
    ensures var stream, c := Stream(batches), Consume("opsee-stack-" + customer, batches);
            && c.deleted == Receipts(stream[..i + 1]) && c.reported == Texts(stream[..i])
            && (PrintsStack(entries, customer, "CREATE_COMPLETE") ==> c.outcome == Complete(MapOf(entries)))
            && (PrintsStack(entries, customer, "ROLLBACK_COMPLETE") ==>
                  c.outcome == Rollback(FailedReason(stream[..i]), MapOf(entries)))
  {
    hide Parse, Consume, Print, MapOf, FailedReason, Texts, Passing, PrintsStack, Stream, DecidesFor, Receipts;
    PrintedStack(entries, customer, "CREATE_COMPLETE");
    PrintedStack(entries, customer, "ROLLBACK_COMPLETE");
    FirstDecisiveMessageDecides(customer, batches, i, MapOf(entries));
  }

  lemma PrintedStack(entries: seq<Entry>, customer: string, status: string)
    requires status == "CREATE_COMPLETE" || status == "ROLLBACK_COMPLETE"
    ensures PrintsStack(entries, customer, status) ==>
              && Parse(Print(entries)) == Some(MapOf(entries))
              && Has(MapOf(entries), "ResourceStatus", status) && DecidesFor(MapOf(entries), customer)
  {
    hide Parse, Print, MapOf;
    if PrintsStack(entries, customer, status) {
      PrintedFields(entries, "ResourceType", "AWS::CloudFormation::Stack");
      PrintedFields(entries, "LogicalResourceId", "opsee-stack-" + customer);
      PrintedFields(entries, "ResourceStatus", status);
    }
  }

  lemma ReadDecision(c: Consumer, customer: string, m: Message, cf: Fields)
    requires c.outcome.Waiting? && m.deletable && m.body.Text? && Parse(m.body.text) == Some(cf)
    requires DecidesFor(cf, customer)
    ensures Read(c, "opsee-stack-" + customer, m) ==
            c.(deleted := c.deleted + [m.receipt],
               outcome := if Has(cf, "ResourceStatus", "CREATE_COMPLETE") then Complete(cf) else Rollback(c.reason, cf))
  {
    hide Parse;
    StateByFields(cf, customer);
  }

  /** A printed entry is a field of the parsed message. */
  lemma PrintedFields(entries: seq<Entry>, key: string, value: string)
    requires entries != [] && DistinctKeys(entries) && forall e | e in entries :: Printable(e.key, e.value)
    ensures Parse(Print(entries)) == Some(MapOf(entries))
    ensures Entry(key, value) in entries ==> Has(MapOf(entries), key, value)
  {
    RoundTrip(entries);
    if Entry(key, value) in entries {
      var i :| 0 <= i < |entries| && entries[i] == Entry(key, value);
      MapOfHolds(entries, i);
    }
  }

  /** The same statuses decide nothing when the printed resource is not this customer's stack. */
  lemma OthersDecideNothing(customer: string, m: Message, entries: seq<Entry>, typ: string, id: string)
    requires m.deletable && m.body == Text(Print(entries))
    requires DistinctKeys(entries) && forall e | e in entries :: Printable(e.key, e.value)
    requires Entry("ResourceType", typ) in entries && Entry("LogicalResourceId", id) in entries
    requires typ != "AWS::CloudFormation::Stack" || id != "opsee-stack-" + customer
    ensures Passing(m, customer)
  {
    PrintedFields(entries, "ResourceType", typ);
    PrintedFields(entries, "LogicalResourceId", id);
  }

  /** The reason is that of the last printed failure, and empty without one. */
  lemma {:induction false} ReasonOfLastFailure(
    before: seq<Message>, m: Message, after: seq<Message>, entries: seq<Entry>, reason: string)
    requires m.body == Text(Print(entries))
    requires DistinctKeys(entries) && forall e | e in entries :: Printable(e.key, e.value)
    requires Entry("ResourceStatus", "CREATE_FAILED") in entries && Entry("ResourceStatusReason", reason) in entries
    requires forall a | a in after :: !SaysFailed(a)
    ensures FailedReason(before + [m] + after) == reason
    ensures FailedReason(after) == ""
    decreases |after|
  {
    var all := before + [m] + after;
    if after == [] {
      assert all == before + [m] && all[|all| - 1] == m;
      PrintedFields(entries, "ResourceStatus", "CREATE_FAILED");
      PrintedFields(entries, "ResourceStatusReason", reason);
    } else {
      var front := after[..|after| - 1];
      assert after[|after| - 1] in after && forall a | a in front :: a in after;
      assert all[..|all| - 1] == before + [m] + front && all[|all| - 1] == after[|after| - 1];
      ReasonOfLastFailure(before, m, front, entries, reason);
    }
  }

  /** A message that cannot be decoded, deleted or parsed fails the stage; only in the last case has it been deleted. */
  lemma BadMessageFails(customer: string, batches: seq<Batch>, i: nat)
    requires i < |Stream(batches)| && forall m | m in Stream(batches)[..i] :: Passing(m, customer)
    requires var m := Stream(batches)[i];
             m.body.Undecodable? || !m.deletable || (m.body.Text? && Parse(m.body.text) == None)
    ensures var stream, c := Stream(batches), Consume("opsee-stack-" + customer, batches);
            if stream[i].body.Undecodable? then c.outcome == DecodeError && c.deleted == Receipts(stream[..i])
            else if !stream[i].deletable then c.outcome == DeleteError && c.deleted == Receipts(stream[..i])
            else c.outcome == ParseError && c.deleted == Receipts(stream[..i + 1])
  {
    var stream := Stream(batches);
    Undecided(customer, stream[..i]);
    FirstToStop(customer, batches, i);
    assert Receipts(stream[..i + 1]) == Receipts(stream[..i]) + [stream[i].receipt];
    hide Parse, ReadAll, Consume, Receipts;
  }

  /** A stream that passes leaves the stage polling, unless receiving fails. */
  lemma NothingDecisiveWaits(customer: string, batches: seq<Batch>)
    requires forall m | m in Stream(batches) :: Passing(m, customer)
    ensures var stream, c := Stream(batches), Consume("opsee-stack-" + customer, batches);
            c == Consumer(FailedReason(stream), Receipts(stream), Texts(stream),
                          if ReceiveFailed in batches then ReceiveError else Waiting)
  {
    Undecided(customer, Stream(batches));
    BrokenExactly(batches);
  }

  lemma {:induction false} BrokenExactly(batches: seq<Batch>)
    ensures Broken(batches) <==> ReceiveFailed in batches
  {
    if batches == [] {
    } else {
      BrokenExactly(batches[1..]);
      assert batches == [batches[0]] + batches[1..];
    }
  }

  /** The format, literally: one line for one field. */
  lemma OneLine(key: string, value: string)
    requires Printable(key, value)
    ensures Parse(key + "='" + value + "'\n") == Some(map[key := value])
  {
    var entries := [Entry(key, value)];
    assert entries[1..] == [] && entries[..0] == [];
    assert Print(entries) == key + "='" + value + "'\n" by {
      assert Print(entries[1..]) == "";
    }
    assert MapOf(entries) == map[key := value] by {
      assert MapOf(entries[..0]) == map[];
    }
    RoundTrip(entries);
  }

  // Batch boundaries

  lemma {:induction false} StreamConcat(a: seq<Batch>, b: seq<Batch>)
    ensures Stream(a + b) == if Broken(a) then Stream(a) else Stream(a) + Stream(b)
    ensures Broken(a + b) <==> Broken(a) || Broken(b)
  {
    if a == [] {
      assert a + b == b;
    } else {
      assert (a + b)[0] == a[0] && (a + b)[1..] == a[1..] + b;
      StreamConcat(a[1..], b);
    }
  }

  /** Batch boundaries do not matter: two successive batches can be one. */
  lemma BoundariesDoNotMatter(stack: string, a: seq<Batch>, x: seq<Message>, y: seq<Message>, b: seq<Batch>)
    ensures Consume(stack, a + [Received(x), Received(y)] + b) == Consume(stack, a + [Received(x + y)] + b)
  {
    hide ReadAll;
    var two, one := [Received(x), Received(y)], [Received(x + y)];
    assert two[1..] == [Received(y)] && [Received(y)][1..] == [] && one[1..] == [];
    assert x + (y + []) == x + y && (x + y) + [] == x + y;
    StreamConcat(a, two);
    StreamConcat(a, one);
    StreamConcat(a + two, b);
    StreamConcat(a + one, b);
  }
}
