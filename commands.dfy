/** The command tables (src/commands.js), which pair each command name of the
    protocol with the reply status that signals success, and the wiring that
    the client's constructor sets up for each of its command methods
    (src/client.js). */
module Commands {
  import opened JsValues

  /** A (command name, expected reply status) pair. */
  type Entry = (string, string)

  /** Commands whose successful reply is a status line, possibly with a body. */
  const CommandTable: seq<Entry> := [
    ("use", "USING"),
    ("list-tube-used", "USING"),
    ("pause-tube", "PAUSED"),
    ("put", "INSERTED"),
    ("watch", "WATCHING"),
    ("ignore", "WATCHING"),
    ("reserve", "RESERVED"),
    ("reserve-with-timeout", "RESERVED"),
    ("delete", "DELETED"),
    ("bury", "BURIED"),
    ("release", "RELEASED"),
    ("touch", "TOUCHED"),
    ("kick-job", "KICKED"),
    ("peek", "FOUND"),
    ("peek-ready", "FOUND"),
    ("peek-delayed", "FOUND"),
    ("peek-buried", "FOUND")
  ]

  /** Commands whose successful reply carries a YAML document. */
  const YamlCommandTable: seq<Entry> := [
    ("list-tubes-watched", "OK"),
    ("list-tubes", "OK"),
    ("stats-job", "OK"),
    ("stats-tube", "OK"),
    ("stats", "OK")
  ]

  predicate NamesDistinct(table: seq<Entry>)
  {
    forall i, j :: 0 <= i < j < |table| ==> table[i].0 != table[j].0
  }

  predicate Named(table: seq<Entry>, name: string)
  {
    exists i :: 0 <= i < |table| && table[i].0 == name
  }

  /** The status of the first entry named `name`. */
  function Lookup(table: seq<Entry>, name: string): (r: Option<string>)
    ensures r.Some? <==> Named(table, name)
    ensures r.Some? ==> exists i :: 0 <= i < |table| && table[i] == (name, r.value) &&
                                    forall j :: 0 <= j < i ==> table[j].0 != name
  {
    if table == [] then None
    else if table[0].0 == name then Some(table[0].1)
    else
      var r := Lookup(table[1..], name);
      assert Named(table, name) ==> Named(table[1..], name) by {
        if Named(table, name) {
          var i :| 0 <= i < |table| && table[i].0 == name;
          assert table[1..][i - 1].0 == name;
        }
      }
      assert r.Some? ==> exists i :: 0 <= i < |table| && table[i] == (name, r.value) &&
                                     forall j :: 0 <= j < i ==> table[j].0 != name by {
        if r.Some? {
          var k :| 0 <= k < |table[1..]| && table[1..][k] == (name, r.value) &&
                   forall j :: 0 <= j < k ==> table[1..][j].0 != name;
          assert table[k + 1] == (name, r.value);
          assert forall j :: 0 <= j < k + 1 ==> table[j].0 != name by {
            forall j | 0 <= j < k + 1 ensures table[j].0 != name {
              if j > 0 { assert table[j] == table[1..][j - 1]; }
            }
          }
        }
      }
      r
  }

  /** The expected status of a command, from either table. */
  function ExpectedStatus(name: string): Option<string>
  {
    match Lookup(CommandTable, name)
    case Some(status) => Some(status)
    case None => Lookup(YamlCommandTable, name)
  }

  /** In a table whose names are distinct, looking up an entry's name gives
      that entry's status. */
  lemma {:induction false} LookupFindsEntry(table: seq<Entry>, i: nat)
    requires NamesDistinct(table)
    requires i < |table|
    ensures Lookup(table, table[i].0) == Some(table[i].1)
  {
    if i > 0 {
      assert table[0].0 != table[i].0;
      assert table[1..][i - 1] == table[i];
      LookupFindsEntry(table[1..], i - 1);
    }
  }

  /** No name occurs twice within a table, nor in both tables. */
  lemma TablesAreDistinct()
    ensures NamesDistinct(CommandTable)
    ensures NamesDistinct(YamlCommandTable)
    ensures forall i, j :: 0 <= i < |CommandTable| && 0 <= j < |YamlCommandTable| ==>
              CommandTable[i].0 != YamlCommandTable[j].0
  {
  }

  /** Every YAML command expects `OK`. */
  lemma YamlCommandsExpectOk()
    ensures forall e :: e in YamlCommandTable ==> e.1 == "OK"
  {
  }

  /** Each command's expected status is the one its table entry lists. */
  lemma ExpectedStatusOfCommand(i: nat)
    requires i < |CommandTable|
    ensures ExpectedStatus(CommandTable[i].0) == Some(CommandTable[i].1)
  {
    TablesAreDistinct();
    LookupFindsEntry(CommandTable, i);
  }

  /** Each YAML command's expected status is the one its table entry lists:
      no entry of the first table shadows it. */
  lemma ExpectedStatusOfYamlCommand(j: nat)
    requires j < |YamlCommandTable|
    ensures ExpectedStatus(YamlCommandTable[j].0) == Some(YamlCommandTable[j].1)
  {
    TablesAreDistinct();
    LookupFindsEntry(YamlCommandTable, j);
    assert !Named(CommandTable, YamlCommandTable[j].0);
  }

  /** use and list-tube-used share USING; watch and ignore share WATCHING. */
  lemma TubeStatuses()
    ensures ExpectedStatus("use") == ExpectedStatus("list-tube-used") == Some("USING")
    ensures ExpectedStatus("watch") == ExpectedStatus("ignore") == Some("WATCHING")
  {
    var t := CommandTable;
    assert t[0].0 == "use" && t[1].0 == "list-tube-used" && t[4].0 == "watch" && t[5].0 == "ignore";
    ExpectedStatusOfCommand(0);
    ExpectedStatusOfCommand(1);
    ExpectedStatusOfCommand(4);
    ExpectedStatusOfCommand(5);
  }

  /** Both reserve variants expect RESERVED. */
  lemma ReserveStatuses()
    ensures ExpectedStatus("reserve") == ExpectedStatus("reserve-with-timeout") == Some("RESERVED")
  {
    var t := CommandTable;
    assert t[6].0 == "reserve" && t[7].0 == "reserve-with-timeout";
    ExpectedStatusOfCommand(6);
    ExpectedStatusOfCommand(7);
  }

  /** All four peek variants expect FOUND. */
  lemma PeekStatuses()
    ensures ExpectedStatus("peek") == ExpectedStatus("peek-ready") == Some("FOUND")
    ensures ExpectedStatus("peek-delayed") == ExpectedStatus("peek-buried") == Some("FOUND")
  {
    ExpectedStatusOfCommand(13);
    ExpectedStatusOfCommand(14);
    ExpectedStatusOfCommand(15);
    ExpectedStatusOfCommand(16);
  }

  /** How a command method writes its request (src/writer.js). */
  datatype WriterKind = BasicWriter | BodyWriter

  /** How a command method reads its reply, as src/client.js names it.
      `BodyReader` is imported there but src/reader.js does not define it;
      this model reads those replies as `BasicReader` does. */
  datatype ReaderKind = BasicReader | BodyReader | YamlReader

  /** One command method of the client: its property name, the command name it
      writes, its writer and reader, and the status its reader expects. */
  datatype Wiring = Wiring(property: string, command: string, writer: WriterKind,
                           reader: ReaderKind, expectation: string)

  /** The command methods that the client's constructor creates, in order. */
  const ClientWiring: seq<Wiring> := [
    Wiring("use", "use", BasicWriter, BasicReader, "USING"),
    Wiring("listTubeUsed", "list-tube-used", BasicWriter, BasicReader, "USING"),
    Wiring("pauseTube", "pause-tube", BasicWriter, BasicReader, "PAUSED"),
    Wiring("put", "put", BodyWriter, BasicReader, "INSERTED"),
    Wiring("watch", "watch", BasicWriter, BasicReader, "WATCHING"),
    Wiring("ignore", "ignore", BasicWriter, BasicReader, "WATCHING"),
    Wiring("reserve", "reserve", BasicWriter, BodyReader, "RESERVED"),
    Wiring("reserveWithTimeout", "reserve-with-timeout", BasicWriter, BodyReader, "RESERVED"),
    Wiring("destroy", "delete", BasicWriter, BasicReader, "DELETED"),
    Wiring("bury", "bury", BasicWriter, BasicReader, "BURIED"),
    Wiring("release", "release", BasicWriter, BasicReader, "RELEASED"),
    Wiring("touch", "touch", BasicWriter, BasicReader, "TOUCHED"),
    Wiring("kickJob", "kick-job", BasicWriter, BasicReader, "KICKED"),
    Wiring("peek", "peek", BasicWriter, BodyReader, "FOUND"),
    Wiring("peekReady", "peek-ready", BasicWriter, BodyReader, "FOUND"),
    Wiring("peekDelayed", "peek-delayed", BasicWriter, BodyReader, "FOUND"),
    Wiring("peekBuried", "peek-buried", BasicWriter, BodyReader, "FOUND"),
    Wiring("listTubesWatched", "list-tubes-watched", BasicWriter, YamlReader, "OK"),
    Wiring("listTubes", "list-tubes", BasicWriter, YamlReader, "OK"),
    Wiring("statsJob", "stats-job", BasicWriter, YamlReader, "OK"),
    Wiring("statsTube", "stats-tube", BasicWriter, YamlReader, "OK"),
    Wiring("stats", "stats", BasicWriter, YamlReader, "OK")
  ]

  /** The wiring lists the tables' commands in the tables' order, each with
      the status its table entry gives. */
  lemma WiringFollowsTables()
    ensures |ClientWiring| == |CommandTable| + |YamlCommandTable|
    ensures forall i :: 0 <= i < |CommandTable| ==>
              ClientWiring[i].command == CommandTable[i].0 && ClientWiring[i].expectation == CommandTable[i].1
    ensures forall j :: 0 <= j < |YamlCommandTable| ==>
              ClientWiring[|CommandTable| + j].command == YamlCommandTable[j].0 &&
              ClientWiring[|CommandTable| + j].expectation == YamlCommandTable[j].1
  {
  }

  /** The tables agree with the client: each command method's reader expects
      the status that the tables give for the command it writes (put expects
      INSERTED, delete DELETED, ...). */
  lemma WiringAgreesWithTables(w: Wiring)
    requires w in ClientWiring
    ensures ExpectedStatus(w.command) == Some(w.expectation)
  {
    WiringFollowsTables();
    var i :| 0 <= i < |ClientWiring| && ClientWiring[i] == w;
    if i < |CommandTable| {
      ExpectedStatusOfCommand(i);
    } else {
      ExpectedStatusOfYamlCommand(i - |CommandTable|);
    }
  }

  /** Only `put` writes a body, and exactly the commands of the YAML table
      read their reply with the YAML reader. */
  lemma WiringKinds(i: nat)
    requires i < |ClientWiring|
    ensures ClientWiring[i].writer == BodyWriter <==> i == 3
    ensures ClientWiring[i].reader == YamlReader <==> i >= |CommandTable|
  {
  }

  /** A command name that can head a request line: ASCII, with no space
      and no carriage return. */
  predicate PlainName(s: string)
  {
    IsAscii(s) && ' ' !in s && '\r' !in s
  }

  /** Every command the client sends has a plain name. */
  lemma WiringCommandsPlain()
    ensures forall i :: 0 <= i < |ClientWiring| ==> PlainName(ClientWiring[i].command)
  {
    forall i | 0 <= i < |ClientWiring| ensures PlainName(ClientWiring[i].command) {
      WiringFollowsTables();
      if i < |CommandTable| {
        CommandNamesPlain(i);
      } else {
        YamlCommandNamesPlain(i - |CommandTable|);
      }
    }
  }

  lemma CommandNamesPlain(i: nat)
    requires i < |CommandTable|
    ensures PlainName(CommandTable[i].0)
  {
    if i < 6 {
      FirstNamesPlain(i);
    } else if i < 12 {
      MiddleNamesPlain(i);
    } else {
      LastNamesPlain(i);
    }
  }

  lemma FirstNamesPlain(i: nat)
    requires i < 6
    ensures PlainName(CommandTable[i].0)
  {
  }

  lemma MiddleNamesPlain(i: nat)
    requires 6 <= i < 12
    ensures PlainName(CommandTable[i].0)
  {
  }

  lemma LastNamesPlain(i: nat)
    requires 12 <= i < |CommandTable|
    ensures PlainName(CommandTable[i].0)
  {
  }

  lemma YamlCommandNamesPlain(j: nat)
    requires j < |YamlCommandTable|
    ensures PlainName(YamlCommandTable[j].0)
  {
  }
}
