/** The command test of `comm.c`. */
module ChatCommands {
  import opened CStrings

  predicate EndsWord(c: char) {
    c == ' ' || c == '\n'
  }

  /** `check_command(mesg, command)` on C strings. */
  predicate CheckCommand(mesg: string, command: string) {
    && mesg != ""
    && (mesg[0] == '/' || mesg[0] == '!')
    && command <= mesg[1..]
    && (|mesg| == 1 + |command| || EndsWord(mesg[1 + |command|]))
  }

  /** The text up to the first blank or newline: what a user would call the word. */
  function FirstWord(s: string): (w: string)
    ensures w <= s && ' ' !in w && '\n' !in w
    ensures |w| < |s| ==> EndsWord(s[|w|])
  {
    if s == "" || EndsWord(s[0]) then "" else [s[0]] + FirstWord(s[1..])
  }

  predicate IsWord(command: string) {
    ' ' !in command && '\n' !in command
  }

  /**
   The byte-level test accepts a message exactly when its first word after the
   marker is the command.
   */
  lemma CommandIsFirstWord(mesg: string, command: string)
    requires IsWord(command)
    ensures CheckCommand(mesg, command) <==>
            mesg != "" && (mesg[0] == '/' || mesg[0] == '!') && FirstWord(mesg[1..]) == command
  {
    if CheckCommand(mesg, command) {
      var word := FirstWord(mesg[1..]);
      assert |word| <= |command| && |command| <= |word|;
    }
  }

  /** The same in characters: marker, command, and then the end, a blank or a newline. */
  lemma CommandIsMarked(mesg: string, command: string)
    ensures CheckCommand(mesg, command) <==>
            exists tail :: (tail == "" || tail[0] == ' ' || tail[0] == '\n')
                           && (mesg == "/" + (command + tail) || mesg == "!" + (command + tail))
  {
    if CheckCommand(mesg, command) {
      var tail := mesg[1 + |command|..];
      assert mesg[1..] == command + tail;
      assert mesg == [mesg[0]] + mesg[1..];
    }
  }

  /** No message passes two different tests, so the order of the tests is irrelevant. */
  lemma AtMostOneCommand(mesg: string, c1: string, c2: string)
    requires IsWord(c1) && IsWord(c2)
    requires CheckCommand(mesg, c1) && CheckCommand(mesg, c2)
    ensures c1 == c2
  {
    CommandIsFirstWord(mesg, c1);
    CommandIsFirstWord(mesg, c2);
  }
}
