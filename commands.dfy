/**
 * The chat commands of `PlayerCommands`: text typed after a `/` is looked
 * up in a fixed table of eight commands, `help` lists them, and anything
 * else is answered with "Unknown command: ".  Effects are a new player
 * position or a new speech-bubble text.
 */
module Commands {
  import opened Wrappers
  import JsText

  /** What running a command does. */
  datatype Action =
    | Teleport(x: int, y: int)   // `player.setPosition(x, y)`
    | ShowPosition               // the speech bubble reports the player's position

  datatype Command = Command(name: string, description: string, action: Action)

  /** The command table, in the order its keys are declared (the order `for…in` visits them). */
  const Table: seq<Command> := [
    Command("home", "Teleports the player to home position.", Teleport(9600, 8960)),
    Command("ogj", "Teleports the player to OGJ position.", Teleport(1731, 9998)),
    Command("graz", "Teleports the player to Graz.", Teleport(18114, 6306)),
    Command("bär", "Teleports the player to Bär.", Teleport(12105, 6349)),
    Command("liebe", "Teleports the player to Liebe.", Teleport(3211, 4423)),
    Command("exil", "Teleports the player to Exil.", Teleport(18280, 881)),
    Command("wald", "Teleports the player to Wald.", Teleport(9827, 1459)),
    Command("position", "Displays the player's current position.", ShowPosition)
  ]

  /** `commands[name]` restricted to the table's own keys: the entry named `name`, if any. */
  function Lookup(table: seq<Command>, name: string): (r: Option<Command>)
    ensures r.Some? ==> r.value in table && r.value.name == name
    ensures r.None? <==> forall c :: c in table ==> c.name != name
  {
    if table == [] then None
    else if table[0].name == name then Some(table[0])
    else Lookup(table[1..], name)
  }

  /** No two entries share a key, so a name picks out exactly one command. */
  lemma TableKeysDistinct()
    ensures forall i, j :: 0 <= i < j < |Table| ==> Table[i].name != Table[j].name
  {
  }

  /** What `executeCommand` makes of the typed text. */
  datatype Request =
    | NotACommand            // no leading `/`: nothing happens
    | Help                   // `/help`
    | Run(cmd: Command)      // a key of the table
    | Unknown(name: string)  // anything else after `/`

  /** The input is a command only with a leading `/`; the rest must match `help` or a key exactly. */
  function Classify(typed: string): (r: Request)
    ensures r.NotACommand? <==> (typed == [] || typed[0] != '/')
    ensures r.Help? <==> typed == "/help"
    ensures r.Run? ==> r.cmd in Table && typed == "/" + r.cmd.name
    ensures r.Run? <==> exists c :: c in Table && typed == "/" + c.name
    ensures r.Unknown? ==> typed == "/" + r.name && r.name != "help"
    ensures r.Unknown? ==> forall c :: c in Table ==> c.name != r.name
  {
    if typed == [] || typed[0] != '/' then NotACommand
    else
      var command := typed[1..];
      assert typed == "/" + command;
      if command == "help" then Help
      else match Lookup(Table, command)
        case Some(c) => Run(c)
        case None => Unknown(command)
  }

  /** `/home` teleports to (9600, 8960). */
  lemma HomeTeleports()
    ensures Classify("/home") == Run(Table[0]) && Table[0].action == Teleport(9600, 8960)
  {
    assert "/home"[1..] == "home";
  }

  /** `/exil` teleports to (18280, 881). */
  lemma ExilTeleports()
    ensures Classify("/exil") == Run(Table[5]) && Table[5].action == Teleport(18280, 881)
  {
    var t := Table;
    assert "/exil"[1..] == "exil" && "exil" != "help";
    assert forall j :: 0 <= j < 5 ==> t[j].name != "exil" by {
      assert t[0].name[0] == 'h' && t[2].name[0] == 'g';
      assert |t[1].name| == 3 && |t[3].name| == 3 && |t[4].name| == 5;
    }
    LookupFinds(t, "exil", 5);
  }

  /** The lookup picks the first entry with the name. */
  lemma {:induction false} LookupFinds(table: seq<Command>, name: string, k: nat)
    requires k < |table| && table[k].name == name
    requires forall j :: 0 <= j < k ==> table[j].name != name
    ensures Lookup(table, name) == Some(table[k])
  {
    if k > 0 {
      LookupFinds(table[1..], name, k - 1);
    }
  }

  /** Matching is exact: a trailing space makes `/home ` unknown. */
  lemma TrailingSpaceIsUnknown()
    ensures Classify("/home ") == Unknown("home ")
  {
    assert "/home "[1..] == "home ";
    assert forall c :: c in Table ==> |c.name| != 5 || c.name[4] != ' ';
  }

  /** `/help` is answered with the help text although `help` is not a key of the table. */
  lemma HelpIsNotAKey()
    ensures Classify("/help") == Help
    ensures Lookup(Table, "help") == None
  {
    assert forall c :: c in Table ==> c.name != "help";
  }

  /** The text `/position` puts in the speech bubble. */
  function PositionText(x: int, y: int): string {
    "x: " + JsText.IntText(x) + " y: " + JsText.IntText(y)
  }

  /** One line of the help text, without its newline. */
  function HelpEntry(c: Command): string {
    "/" + c.name + ": " + c.description
  }

  function HelpLines(cs: seq<Command>): string {
    if cs == [] then "" else HelpEntry(cs[0]) + "\n" + HelpLines(cs[1..])
  }

  const HelpHeader: string := "Available commands:"

  /** The complete help text for a table. */
  function HelpText(cs: seq<Command>): string {
    HelpHeader + "\n" + HelpLines(cs)
  }

  lemma {:induction false} HelpLinesAppend(cs: seq<Command>, c: Command)
    ensures HelpLines(cs + [c]) == HelpLines(cs) + HelpEntry(c) + "\n"
  {
    if cs != [] {
      assert (cs + [c])[1..] == cs[1..] + [c];
      HelpLinesAppend(cs[1..], c);
    }
  }

  lemma HelpLinesStep(cs: seq<Command>, i: nat)
    requires i < |cs|
    ensures HelpLines(cs[..i + 1]) == HelpLines(cs[..i]) + HelpEntry(cs[i]) + "\n"
  {
    assert cs[..i + 1] == cs[..i] + [cs[i]];
    HelpLinesAppend(cs[..i], cs[i]);
  }

  predicate NoNewlines(cs: seq<Command>) {
    forall i :: 0 <= i < |cs| ==> '\n' !in cs[i].name && '\n' !in cs[i].description
  }

  function Entries(cs: seq<Command>): (r: seq<string>)
    ensures |r| == |cs| && forall i :: 0 <= i < |cs| ==> r[i] == HelpEntry(cs[i])
  {
    if cs == [] then [] else [HelpEntry(cs[0])] + Entries(cs[1..])
  }

  lemma {:induction false} HelpLinesAsJoin(cs: seq<Command>)
    ensures HelpLines(cs) == JsText.Join(Entries(cs) + [""], '\n')
  {
    if cs != [] {
      HelpLinesAsJoin(cs[1..]);
      assert Entries(cs) + [""] == [HelpEntry(cs[0])] + (Entries(cs[1..]) + [""]);
    }
  }

  /**
   * Read line by line, the help text is the header, then one
   * `/<cmd>: <description>` line per table entry in table order, and
   * nothing after the last newline.
   */
  lemma HelpTextLines(cs: seq<Command>)
    requires NoNewlines(cs)
    ensures JsText.Split(HelpText(cs), '\n') == [HelpHeader] + Entries(cs) + [""]
  {
    HelpLinesAsJoin(cs);
    var pieces := [HelpHeader] + Entries(cs) + [""];
    assert pieces[1..] == Entries(cs) + [""];
    assert HelpText(cs) == JsText.Join(pieces, '\n');
    forall i | 0 <= i < |pieces| ensures '\n' !in pieces[i] {
      if 1 <= i <= |cs| {
        assert pieces[i] == HelpEntry(cs[i - 1]);
      }
    }
    JsText.SplitJoin(pieces, '\n');
  }

  /** None of the game's command names and descriptions spans lines. */
  lemma TableHasNoNewlines()
    ensures NoNewlines(Table)
  {
    forall i | 0 <= i < |Table|
      ensures '\n' !in Table[i].name && '\n' !in Table[i].description
    {
      var c := Table[i];
      assert forall k :: 0 <= k < |c.name| ==> c.name[k] != '\n';
      assert forall k :: 0 <= k < |c.description| ==> c.description[k] != '\n';
    }
  }

  /**
   * The game's own help text: `Available commands:`, then the lines for
   * home, ogj, graz, bär, liebe, exil, wald and position in that order.
   */
  lemma TableHelpTextLines()
    ensures JsText.Split(HelpText(Table), '\n') == [HelpHeader] + Entries(Table) + [""]
    ensures |Entries(Table)| == 8 && forall i :: 0 <= i < 8 ==> Entries(Table)[i] == HelpEntry(Table[i])
  {
    TableHasNoNewlines();
    HelpTextLines(Table);
  }

  /** The player sprite, reduced to its position. */
  class Player {
    var x: int
    var y: int

    constructor (x: int, y: int)
      ensures this.x == x && this.y == y
    {
      this.x, this.y := x, y;
    }

    method SetPosition(x: int, y: int)
      modifies this
      ensures this.x == x && this.y == y
    {
      this.x, this.y := x, y;
    }
  }

  /** The speech bubble, reduced to the text it shows. */
  class SpeechBubble {
    var text: string

    constructor ()
      ensures text == ""
    {
      text := "";
    }

    method SetText(text: string)
      modifies this
      ensures this.text == text
    {
      this.text := text;
    }
  }

  class PlayerCommands {
    const player: Player
    const speechBubble: SpeechBubble
    const commands: seq<Command>

    constructor (player: Player, speechBubble: SpeechBubble)
      ensures this.player == player && this.speechBubble == speechBubble
      ensures commands == Table
    {
      this.player := player;
      this.speechBubble := speechBubble;
      this.commands := Table;
    }

    ghost predicate Valid()
      reads this
    {
      commands == Table
    }

    /** `executeCommand`: the effect of the typed text, as `Classify` reads it. */
    method ExecuteCommand(typedText: string)
      requires Valid()
      modifies player, speechBubble
      ensures Classify(typedText).NotACommand? ==> unchanged(player) && unchanged(speechBubble)
      ensures Classify(typedText).Help? ==> speechBubble.text == HelpText(Table) && unchanged(player)
      ensures Classify(typedText).Unknown? ==>
                speechBubble.text == "Unknown command: " + Classify(typedText).name && unchanged(player)
      ensures Classify(typedText).Run? && Classify(typedText).cmd.action.Teleport? ==>
                player.x == Classify(typedText).cmd.action.x && player.y == Classify(typedText).cmd.action.y
                && unchanged(speechBubble)
      ensures Classify(typedText).Run? && Classify(typedText).cmd.action.ShowPosition? ==>
                speechBubble.text == PositionText(old(player.x), old(player.y)) && unchanged(player)
    {
      if |typedText| > 0 && typedText[0] == '/' {
        var command := typedText[1..];
        if command == "help" {
          ShowHelp();
        } else {
          var entry := Lookup(commands, command);
          if entry.Some? {
            Run(entry.value.action);
          } else {
            speechBubble.SetText("Unknown command: " + command);
          }
        }
      }
    }

    /** A command's `action()`. */
    method Run(action: Action)
      modifies player, speechBubble
      ensures action.Teleport? ==> player.x == action.x && player.y == action.y && unchanged(speechBubble)
      ensures action.ShowPosition? ==>
                speechBubble.text == PositionText(old(player.x), old(player.y)) && unchanged(player)
    {
      match action
      case Teleport(x, y) => player.SetPosition(x, y);
      case ShowPosition => speechBubble.SetText(PositionText(player.x, player.y));
    }

    /** `showHelp`: the header line, then one line per command in table order. */
    method ShowHelp()
      modifies speechBubble
      ensures speechBubble.text == HelpText(commands)
    {
      var helpText := HelpHeader + "\n";
      var i := 0;
      assert commands[..0] == [];
      while i < |commands|
        invariant 0 <= i <= |commands|
        invariant helpText == HelpHeader + "\n" + HelpLines(commands[..i])
      {
        var cmd := commands[i];
        HelpLinesStep(commands, i);
        helpText := helpText + ("/" + cmd.name + ": " + cmd.description + "\n");
        i := i + 1;
      }
      assert commands[..i] == commands;
      speechBubble.SetText(helpText);
    }
  }
}
