/** The command that a gateway FMU starts the simer runtime with, and the parameters a generated FMU has for
    choosing it (dse/fmigateway/session_win32.c:819-834,
    extra/tools/fmi/internal/app/generate/gatewayfmu.go:283-321). */
module SimerRuntime {
  import opened Decimal
  import opened VrefAllocator
  import opened Wrappers

  /** The string and scalar inputs of the FMU, by the text of their value reference. */
  datatype Inputs = Inputs(strings: map<string, string>, scalars: map<string, real>)

  /** The string input with reference 0; without one, or when it is empty, the configured command that the
      scalar input with reference 1 selects, the first one by default. */
  function SimerCommand(inputs: Inputs, cmds: seq<string>): Option<string> {
    var cmd := if "0" in inputs.strings then Some(inputs.strings["0"]) else None;
    if cmd == None || cmd == Some("") then
      var idx := if "1" in inputs.scalars && inputs.scalars["1"] >= 0.0 then inputs.scalars["1"].Floor else 0;
      if idx < |cmds| then Some(cmds[idx]) else cmd
    else cmd
  }

  /** Which references an FMU gives to its command and selector parameters. */
  datatype Assignment = Assignment(command: nat, selector: nat)

  /** The inputs when an importer has set both parameters. */
  function WithParameters(inputs: Inputs, a: Assignment, command: string, selector: real): Inputs {
    Inputs(inputs.strings[Render(a.command) := command], inputs.scalars[Render(a.selector) := selector])
  }

  /** Some setting of the command parameter makes a difference. */
  ghost predicate CommandCounts(a: Assignment) {
    exists inputs, s, t, selector, cmds ::
      SimerCommand(WithParameters(inputs, a, s, selector), cmds)
          != SimerCommand(WithParameters(inputs, a, t, selector), cmds)
  }

  /** Some setting of the selector parameter makes a difference. */
  ghost predicate SelectorCounts(a: Assignment) {
    exists inputs, command, s, t, cmds ::
      SimerCommand(WithParameters(inputs, a, command, s), cmds)
          != SimerCommand(WithParameters(inputs, a, command, t), cmds)
  }

  lemma {:induction false} KeysOfReferences(n: nat)
    ensures Render(n) == "0" <==> n == 0
    ensures Render(n) == "1" <==> n == 1
  {
    assert Render(0) == "0" && Render(1) == "1";
    if Render(n) == "0" { RenderInjective(n, 0); }
    if Render(n) == "1" { RenderInjective(n, 1); }
  }

  /** The command parameter has an effect exactly with reference 0; a non-empty command is then the one used. */
  lemma {:induction false} CommandNeedsReference0(a: Assignment)
    ensures CommandCounts(a) <==> a.command == 0
    ensures a.command == 0 ==> forall inputs, command, selector, cmds :: command != "" ==>
              SimerCommand(WithParameters(inputs, a, command, selector), cmds) == Some(command)
  {
    KeysOfReferences(a.command);
    if a.command == 0 {
      var inputs := Inputs(map[], map[]);
      assert SimerCommand(WithParameters(inputs, a, "x", 0.0), []) == Some("x");
      assert SimerCommand(WithParameters(inputs, a, "y", 0.0), []) == Some("y");
    }
  }

  /** The selector parameter has an effect exactly with reference 1; when no command is given, it is then the
      position of the command used. */
  lemma {:induction false} SelectorNeedsReference1(a: Assignment)
    ensures SelectorCounts(a) <==> a.selector == 1
    ensures a == Assignment(0, 1) ==> forall inputs, selector, cmds: seq<string> ::
              selector >= 0.0 && selector.Floor < |cmds| ==>
                SimerCommand(WithParameters(inputs, a, "", selector), cmds) == Some(cmds[selector.Floor])
  {
    KeysOfReferences(a.selector);
    KeysOfReferences(a.command);
    if a.selector == 1 {
      var inputs := Inputs(map[], map[]);
      var cmds := ["x", "y"];
      assert 0.0.Floor == 0 && 1.0.Floor == 1;
      assert SimerCommand(WithParameters(inputs, a, "", 0.0), cmds) == Some("x");
      assert SimerCommand(WithParameters(inputs, a, "", 1.0), cmds) == Some("y");
    }
  }

  /** Without a command the first configured one is used when there is no selector or it is negative, and none at all
      when the selector points behind the last. */
  lemma {:induction false} SimerDefaults(inputs: Inputs, cmds: seq<string>)
    requires "0" in inputs.strings ==> inputs.strings["0"] == ""
    ensures cmds != [] && ("1" in inputs.scalars ==> inputs.scalars["1"] < 0.0) ==>
              SimerCommand(inputs, cmds) == Some(cmds[0])
    ensures "1" in inputs.scalars && inputs.scalars["1"] >= |cmds| as real ==>
              SimerCommand(inputs, cmds) == if "0" in inputs.strings then Some("") else None
  {
  }

  /** The references that the generator gives to the two parameters. */
  ghost predicate AssignedBy(params: seq<Variable>, a: Assignment) {
    Variable("Simer_Command", [a.command]) in params && Variable("Simer_Command_Selector", [a.selector]) in params
  }

  lemma {:induction false} GeneratedAssignment(a: Assignment)
    requires AssignedBy(SimerParameters(), a)
    ensures a == Assignment(1, 0)
  {
    assert |"Simer_Command"| != |"Simer_Command_Selector"|;
    assert Variable("Simer_Command", [a.command]) == SimerParameters()[1];
    assert Variable("Simer_Command_Selector", [a.selector]) == SimerParameters()[0];
    assert [a.command][0] == [1][0] && [a.selector][0] == [0][0];
  }

  /** In a generated FMU neither parameter has any effect: whatever they are set to, the gateway uses the
      command it would have used without them. With the references exchanged both would have one. */
  lemma {:induction false} SimerReferencesSwapped(a: Assignment)
    requires AssignedBy(SimerParameters(), a)
    ensures a == Assignment(1, 0) && !CommandCounts(a) && !SelectorCounts(a)
    ensures forall inputs, command, selector, cmds ::
              SimerCommand(WithParameters(inputs, a, command, selector), cmds) == SimerCommand(inputs, cmds)
    ensures var b := Assignment(a.selector, a.command);
            CommandCounts(b) && SelectorCounts(b)
  {
    GeneratedAssignment(a);
    KeysOfReferences(a.command);
    KeysOfReferences(a.selector);
    CommandNeedsReference0(a);
    SelectorNeedsReference1(a);
    CommandNeedsReference0(Assignment(a.selector, a.command));
    SelectorNeedsReference1(Assignment(a.selector, a.command));
  }
}
