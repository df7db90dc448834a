/** lib/parser.c as an object, with the arrays of the connection its actions write into. */
module Parsers {
  import opened Bytes
  import opened CommandParser

  class Parser {
    var state: State
    var event: Event
    const command: array<Byte>
    var commandLength: nat
    const argument: array<Byte>
    var argumentLength: nat

    ghost predicate Valid()
      reads this
    {
      && command != argument
      && command.Length == COMMAND_LENGTH + 1 && commandLength <= COMMAND_LENGTH
      && argument.Length == ARGUMENT_LENGTH + 1 && argumentLength <= ARGUMENT_LENGTH
    }

    ghost function Model(): (r: BoundedReader)
      requires Valid()
      reads this, command, argument
      ensures r.event == event && r.command == command[..] && r.argument == argument[..]
      ensures r.argumentLength == argumentLength
    {
      Reader(state, event, command[..], commandLength, argument[..], argumentLength)
    }

    /** parser_init, on the zeroed arrays that pop3_init allocates. */
    constructor ()
      ensures Valid() && fresh(command) && fresh(argument)
      ensures Model() == Fresh()
    {
      state := InCommand;
      event := Undefined;
      command := new Byte[COMMAND_LENGTH + 1](i => NUL);
      commandLength := 0;
      argument := new Byte[ARGUMENT_LENGTH + 1](i => NUL);
      argumentLength := 0;
    }

    /** parser_feed: walk the transitions of the state up to the first that matches. */
    method Feed(c: Byte)
      requires Valid()
      modifies this, command, argument
      ensures Valid() && Model() == CommandParser.Feed(old(Model()), c)
    {
      var transitions := Table(state);
      var i := 0;
      var matched := false;
      while i < |transitions| && !matched
        invariant 0 <= i <= |transitions|
        invariant Valid()
        invariant !matched ==> Model() == old(Model())
        invariant !matched ==> FirstMatch(transitions, c) == FirstMatch(transitions[i..], c)
        invariant matched ==> Model() == CommandParser.Feed(old(Model()), c)
        decreases |transitions| - i, !matched
      {
        matched := Matches(transitions[i].when, c);
        if matched {
          assert FirstMatch(transitions[i..], c) == Some(transitions[i]);
          Run(transitions[i].act, c);
          state := transitions[i].dest;
        } else {
          assert transitions[i..][1..] == transitions[i + 1..];
          i := i + 1;
        }
      }
      assert !matched ==> FirstMatch(transitions, c) == None;
    }

    /** The action functions. */
    method Run(act: Action, c: Byte)
      requires Valid()
      modifies this, command, argument
      ensures Valid() && Model() == Act(act, old(Model()), c)
    {
      match act
      case CommandAny =>
        if commandLength < COMMAND_LENGTH {
          event := Undefined;
          command[commandLength] := c;
          commandLength := commandLength + 1;
        } else {
          event := InvalidCommand;
        }
      case CommandReturn =>
        EndWord();
      case CommandSpace =>
        EndWord();
      case ArgumentAny =>
        if argumentLength < ARGUMENT_LENGTH {
          event := Undefined;
          argument[argumentLength] := c;
          argumentLength := argumentLength + 1;
        } else {
          event := InvalidCommand;
        }
      case ArgumentReturn =>
        if argumentLength > 0 && argumentLength < ARGUMENT_LENGTH {
          event := Undefined;
          argument[argumentLength] := NUL;
          argumentLength := argumentLength + 1;
        } else {
          event := InvalidCommand;
        }
      case EndLineFeed =>
        event := ValidCommand;
      case EndAny =>
        event := InvalidCommand;
    }

    /** The body that the SP and CR actions of the command state share. */
    method EndWord()
      requires Valid()
      modifies this, command
      ensures Valid() && Model() == Act(CommandReturn, old(Model()), CR) == Act(CommandSpace, old(Model()), SP)
    {
      if commandLength < COMMAND_LENGTH {
        event := InvalidCommand;
      } else {
        command[commandLength] := NUL;
        event := Undefined;
      }
    }

    /** parser_reset */
    method Reset()
      requires Valid()
      modifies this
      ensures Valid() && Model() == CommandParser.Reset(old(Model()))
    {
      state := InCommand;
    }

    /** The body of clean_command. */
    method Clean()
      requires Valid()
      modifies this, command, argument
      ensures Valid() && Model() == Cleaned(old(Model()))
    {
      command[0] := NUL;
      commandLength := 0;
      argument[0] := NUL;
      argumentLength := 0;
    }
  }
}
