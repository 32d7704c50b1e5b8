/** The client's parser: it takes words out of the input buffer, blanking what it has taken. */
module CommandLine {
  const NUL: char := 0 as char
  const COMMAND_ORDER_SIZE: nat := 20
  const COMMAND_OPTION_SIZE: nat := 512
  /** The place of pwd, which has no option, in the command list. */
  const PWD: int := 3

  predicate Blank(c: char) { c == NUL || c == ' ' }

  predicate Ends(c: char, key: char) { c == key || c == NUL || c == '\n' }

  /** Where the first character stands that is not blank. */
  function WordStart(s: string, from: nat): (j: nat)
    requires from <= |s|
    ensures from <= j <= |s| && (j < |s| ==> !Blank(s[j])) && forall i :: from <= i < j ==> Blank(s[i])
    decreases |s| - from
  {
    if from == |s| || !Blank(s[from]) then from else WordStart(s, from + 1)
  }

  function WordEnd(s: string, from: nat, key: char): (j: nat)
    requires from <= |s|
    ensures from <= j <= |s| && (j < |s| ==> Ends(s[j], key)) && forall i :: from <= i < j ==> !Ends(s[i], key)
    decreases |s| - from
  {
    if from == |s| || Ends(s[from], key) then from else WordEnd(s, from + 1, key)
  }

  /** There is a word, something ends it, and it leaves room for the terminator. */
  predicate HasWord(s: string, key: char, size: nat) {
    var i := WordStart(s, 0);
    var j := WordEnd(s, i, key);
    j < |s| && j - i < size
  }

  function Word(s: string, key: char): string {
    var i := WordStart(s, 0);
    s[i..WordEnd(s, i, key)]
  }

  function Zeros(n: nat): (z: string)
    ensures |z| == n && forall i :: 0 <= i < n ==> z[i] == NUL
  {
    seq(n, _ => NUL)
  }

  /** The buffer after the word and what ended it have been zeroed. */
  function Rest(s: string, key: char): (r: string)
    requires HasWord(s, key, |s| + 1)
    ensures |r| == |s|
  {
    var i := WordStart(s, 0);
    var j := WordEnd(s, i, key);
    s[..i] + Zeros(j + 1 - i) + s[j + 1..]
  }

  /** A C string: what stands before the first NUL. */
  function Text(s: string): string {
    if s == "" || s[0] == NUL then "" else [s[0]] + Text(s[1..])
  }

  lemma {:induction false} TextOf(s: string, n: nat)
    requires n < |s| && s[n] == NUL && forall i :: 0 <= i < n ==> s[i] != NUL
    ensures Text(s) == s[..n]
  {
    if n > 0 {
      TextOf(s[1..], n - 1);
      assert s[..n] == [s[0]] + s[1..][..n - 1];
    }
  }

  /** The first place of a word in the command list, or -1. */
  function CommandId(commands: seq<string>, word: string): (id: int)
    ensures -1 <= id < |commands|
    ensures id >= 0 ==> commands[id] == word && forall i :: 0 <= i < id ==> commands[i] != word
    ensures id == -1 ==> word !in commands
  {
    FirstFrom(commands, word, 0)
  }

  function FirstFrom(commands: seq<string>, word: string, from: nat): (id: int)
    requires from <= |commands|
    ensures id == -1 || from <= id < |commands|
    ensures id >= 0 ==> commands[id] == word && forall i :: from <= i < id ==> commands[i] != word
    ensures id == -1 ==> forall i :: from <= i < |commands| ==> commands[i] != word
    decreases |commands| - from
  {
    if from == |commands| then -1 else if commands[from] == word then from else FirstFrom(commands, word, from + 1)
  }

  /** Copies the next word of the buffer out and zeroes it, with what ended it, in place. */
  method GetInput(order: array<char>, buffer: array<char>, key: char)
    requires order != buffer && HasWord(buffer[..], key, order.Length)
    modifies order, buffer
    ensures Text(order[..]) == Word(old(buffer[..]), key)
    ensures buffer[..] == Rest(old(buffer[..]), key)
  {
    ghost var s := buffer[..];
    ghost var from := WordStart(s, 0);
    ghost var end := WordEnd(s, from, key);
    var i, j := 0, 0;
    while buffer[j] == NUL || buffer[j] == ' '
      invariant j <= from
      invariant buffer[..] == s
      decreases from - j
    {
      j := j + 1;
    }
    while buffer[j] != key && buffer[j] != NUL && buffer[j] != '\n'
      invariant j == from + i && from <= j <= end
      invariant forall k :: 0 <= k < i ==> order[k] == s[from + k]
      invariant forall k :: 0 <= k < |s| ==> buffer[k] == if from <= k < j then NUL else s[k]
      decreases end - j
    {
      if i < order.Length {
        order[i] := buffer[j];
        buffer[j] := NUL;
        i := i + 1;
        j := j + 1;
      }
    }
    buffer[j] := NUL;
    if i < order.Length {
      order[i] := NUL;
    }
    TextOf(order[..], i);
    assert order[..][..i] == s[from..end];
    assert buffer[..] == Rest(s, key);
  }

  /** What a client's order is: a command and its option. */
  class Command {
    var id: int
    const option: array<char>

    constructor ()
      ensures fresh(option) && option.Length == COMMAND_OPTION_SIZE && id == -1
    {
      id := -1;
      option := new char[COMMAND_OPTION_SIZE](_ => NUL);
    }

    method GetCommandId(command: array<char>, commands: seq<string>) returns (found: bool)
      modifies this`id
      ensures id == CommandId(commands, Text(command[..])) && found == (id != -1)
    {
      id := -1;
      var i := 0;
      while i < |commands|
        invariant i <= |commands| && id == -1
        invariant FirstFrom(commands, Text(command[..]), 0) == FirstFrom(commands, Text(command[..]), i)
      {
        if Text(command[..]) == commands[i] {
          id := i;
          break;
        }
        i := i + 1;
      }
      found := id != -1;
    }

    method GetCommandOption(buffer: array<char>)
      requires buffer != option && option.Length > 0
      requires id != PWD ==> HasWord(buffer[..], NUL, option.Length)
      modifies option, buffer
      ensures Text(option[..]) == if id == PWD then "" else Word(old(buffer[..]), NUL)
    {
      if id == PWD {
        option[0] := NUL;
        TextOf(option[..], 0);
        return;
      }
      GetInput(option, buffer, NUL);
    }

    /** The command and the option of a line; a word that is no command leaves the option alone. */
    method GetUserOrder(buffer: array<char>, commands: seq<string>) returns (found: bool)
      requires buffer != option && option.Length == COMMAND_OPTION_SIZE
      requires HasWord(buffer[..], ' ', COMMAND_ORDER_SIZE)
      requires CommandId(commands, Word(buffer[..], ' ')) !in {-1, PWD}
          ==> HasWord(Rest(buffer[..], ' '), NUL, COMMAND_OPTION_SIZE)
      modifies this`id, option, buffer
      ensures id == CommandId(commands, Word(old(buffer[..]), ' ')) && found == (id != -1)
      ensures !found ==> option[..] == old(option[..])
      ensures found ==> Text(option[..]) == if id == PWD then "" else Word(Rest(old(buffer[..]), ' '), NUL)
    {
      var order := new char[COMMAND_ORDER_SIZE];
      GetInput(order, buffer, ' ');
      found := GetCommandId(order, commands);
      if found {
        GetCommandOption(buffer);
      }
    }
  }

  /** The client's command list. */
  const COMMANDS := ["cd", "ls", "remove", "pwd", "gets", "puts"]

  /** The one command without an option is pwd, and the two that are transfers are gets and puts. */
  lemma PlacesOfCommands(word: string)
    ensures CommandId(COMMANDS, word) == PWD <==> word == "pwd"
    ensures CommandId(COMMANDS, word) == 4 <==> word == "gets"
    ensures CommandId(COMMANDS, word) == 5 <==> word == "puts"
  {
    assert COMMANDS[3] == "pwd" && COMMANDS[4] == "gets" && COMMANDS[5] == "puts";
  }

  /** A word: no blank in front, and nothing in it that ends it. */
  predicate Typed(w: string, key: char) {
    w != "" && w[0] != ' ' && w[0] != NUL && forall i :: 0 <= i < |w| ==> w[i] !in {key, NUL, '\n'}
  }

  predicate AllBlank(s: string) { forall i :: 0 <= i < |s| ==> s[i] == ' ' || s[i] == NUL }

  lemma TakesWord(blanks: string, w: string, tail: string, key: char)
    requires AllBlank(blanks) && Typed(w, key) && tail != "" && Ends(tail[0], key)
    ensures var s := blanks + w + tail;
            && HasWord(s, key, |w| + 1) && Word(s, key) == w
            && Rest(s, key) == blanks + Zeros(|w| + 1) + tail[1..]
  {
    var s := blanks + w + tail;
    var i := WordStart(s, 0);
    assert s[|blanks|] == w[0];
    assert i == |blanks|;
    var j := WordEnd(s, i, key);
    assert s[|blanks| + |w|] == tail[0];
    assert forall k :: |blanks| <= k < |blanks| + |w| ==> s[k] == w[k - |blanks|];
    assert j == |blanks| + |w|;
  }

  lemma Regroup(a: string, b: string, c: string, d: string)
    ensures a + (b + c + d) == (a + b) + c + d
  {
  }

  lemma MoreRoom(s: string, key: char, size: nat, more: nat)
    requires HasWord(s, key, size) && size <= more
    ensures HasWord(s, key, more)
  {
  }

  lemma TakesBoth(w: string, option: string, blanks: string, gap: string, tail: string, line: string)
    requires line == blanks + w + ([' '] + (gap + option + tail))
    requires Typed(w, ' ') && Typed(option, NUL) && AllBlank(blanks) && AllBlank(gap) && tail != "" && tail[0] == '\n'
    ensures HasWord(line, ' ', |w| + 1) && Word(line, ' ') == w
    ensures HasWord(Rest(line, ' '), NUL, |option| + 1) && Word(Rest(line, ' '), NUL) == option
  {
    var after := [' '] + (gap + option + tail);
    TakesWord(blanks, w, after, ' ');
    assert after[1..] == gap + option + tail;
    var passed := blanks + Zeros(|w| + 1);
    Regroup(passed, gap, option, tail);
    TakesWord(passed + gap, option, tail, NUL);
  }

  /**
    Whatever blanks stand in front of a command and of its option, the line is
    read back as that command and that option, which may have blanks in it.
   */
  lemma ReadsWhatIsTyped(commands: seq<string>, id: nat, option: string, blanks: string, gap: string, tail: string)
    requires id < |commands| && (forall i, j :: 0 <= i < j < |commands| ==> commands[i] != commands[j])
    requires Typed(commands[id], ' ') && |commands[id]| < COMMAND_ORDER_SIZE
    requires Typed(option, NUL) && |option| < COMMAND_OPTION_SIZE
    requires AllBlank(blanks) && AllBlank(gap) && tail != "" && tail[0] == '\n'
    ensures var line := blanks + commands[id] + ([' '] + (gap + option + tail));
            && HasWord(line, ' ', COMMAND_ORDER_SIZE) && CommandId(commands, Word(line, ' ')) == id
            && HasWord(Rest(line, ' '), NUL, COMMAND_OPTION_SIZE) && Word(Rest(line, ' '), NUL) == option
  {
    var w := commands[id];
    var line := blanks + w + ([' '] + (gap + option + tail));
    TakesBoth(w, option, blanks, gap, tail, line);
    MoreRoom(line, ' ', |w| + 1, COMMAND_ORDER_SIZE);
    MoreRoom(Rest(line, ' '), NUL, |option| + 1, COMMAND_OPTION_SIZE);
  }
}
