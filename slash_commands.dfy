/**
 Slash-command registry (hacking/pr_labeler/pr_labeler/slash_commands.py).

 `register_callback(issue, pull, allow_args, name)(func)` resolves the
 command names, builds one wrapper `inner` around `func` and stores that
 wrapper under every name in the issue table, the pull request table, or
 both. The two module-level dicts are the fields of `CommandTables`.
 */
module SlashCommands {
  import opened Wrappers

  /** A callback function: an opaque identity and its `__name__`. */
  datatype Func = Func(id: nat, name: string)

  /** `SlashCommandCtx`; the labeler context is an opaque value. */
  datatype SlashCommandCtx = SlashCommandCtx(commandName: string, commandArgs: seq<string>, labelerCtx: nat)

  /** `CommandError`: the failing command's name and the error text, stored as given. */
  datatype CommandError = CommandError(commandName: string, error: string) {

    /** The exception message: the command name, a colon and a space, then the error text. */
    function Message(): (m: string)
      ensures |m| == |commandName| + 2 + |error|
      ensures m[..|commandName|] == commandName
      ensures m[|commandName|..|commandName| + 2] == ": "
      ensures m[|commandName| + 2..] == error
    {
      commandName + ": " + error
    }
  }

  /**
   `_no_args(name, text)`, exactly as written: it raises when the argument
   list is EMPTY and returns normally otherwise. The only list that reaches
   the message is the empty one, whose `repr` is `[]`.
   */
  function NoArgs(name: string, text: seq<string>): (r: Option<CommandError>)
    ensures r.Some? <==> text == []
    ensures r.Some? ==> r.value.commandName == name
  {
    if text == [] then
      Some(CommandError(name, "extra arguments: [] are not allowed with " + name + " command"))
    else
      None
  }

  /** The `name` argument of `register_callback`: None, one string, or a collection of strings. */
  datatype NameArg = Default | Single(name: string) | Collection(names: seq<string>)

  /**
   The names a callback is registered under: the function's own name when
   no name is given, the single name, or every element of the collection in
   iteration order.
   */
  function FinalNames(name: NameArg, func: Func): (r: seq<string>)
    ensures !name.Collection? ==> |r| == 1
    ensures name.Default? ==> r[0] == func.name
    ensures name.Single? ==> r[0] == name.name
    ensures name.Collection? ==> r == name.names
  {
    match name
    case Default => [func.name]
    case Single(n) => [n]
    case Collection(ns) => ns
  }

  /**
   `table` after `table[n] = v` for each of `names` in order: the names are
   bound to `v`, other keys keep their entries, no key is dropped.
   */
  function Bind<V>(table: map<string, V>, names: seq<string>, v: V): (r: map<string, V>)
    ensures forall n :: n in names ==> n in r && r[n] == v
    ensures forall k :: k !in names ==> (k in r <==> k in table)
    ensures forall k :: k in table && k !in names ==> r[k] == table[k]
    decreases |names|
  {
    if names == [] then table
    else
      var init := names[..|names| - 1];
      assert forall k :: k in names ==> k in init || k == names[|names| - 1];
      Bind(table, init, v)[names[|names| - 1] := v]
  }

  /** Binding the names up to `i` inclusive is one more assignment after binding those before `i`. */
  lemma BindNext<V>(table: map<string, V>, names: seq<string>, i: nat, v: V)
    requires i < |names|
    ensures Bind(table, names[..i + 1], v) == Bind(table, names[..i], v)[names[i] := v]
  {
  }

  /**
   A value missing from a table is found under one of `names` exactly when
   the table was bound: a fresh wrapper is in a command table iff that
   table was selected.
   */
  lemma BoundIffSelected<V>(table: map<string, V>, names: seq<string>, v: V, selected: bool, after: map<string, V>)
    requires v !in table.Values
    requires after == if selected then Bind(table, names, v) else table
    ensures forall n :: n in names ==> ((n in after && after[n] == v) <==> selected)
  {
  }

  /**
   The wrapper `inner`. Its closure reads the variable `final_name` of the
   registration loop; `finalName` is that cell: rebound by every iteration
   and unbound (None) if the loop never ran.
   */
  class Inner {
    const func: Func
    const allowArgs: bool
    var finalName: Option<string>

    constructor (func: Func, allowArgs: bool)
      ensures this.func == func && this.allowArgs == allowArgs && finalName == None
    {
      this.func := func;
      this.allowArgs := allowArgs;
      finalName := None;
    }
  }

  /** What calling a wrapper does. */
  datatype Outcome =
    | CallsFunc(func: Func, ctx: SlashCommandCtx)  // reaches `func(ctx)`
    | Raises(err: CommandError)                    // `_no_args` raised
    | UnboundName                                  // `final_name` read before assignment

  /**
   `inner(ctx)`: with arguments where none are allowed, it reads
   `final_name` and calls `_no_args`; then it calls `func(ctx)`.
   */
  function Invoke(inner: Inner, ctx: SlashCommandCtx): (r: Outcome)
    reads inner
    ensures r.CallsFunc? ==> r == CallsFunc(inner.func, ctx)
    ensures r.UnboundName? ==> !inner.allowArgs && ctx.commandArgs != []
  {
    if !inner.allowArgs && ctx.commandArgs != [] then
      match inner.finalName
      case None => UnboundName
      case Some(n) =>
        match NoArgs(n, ctx.commandArgs)
        case Some(e) => Raises(e)
        case None => CallsFunc(inner.func, ctx)
    else
      CallsFunc(inner.func, ctx)
  }

  /**
   The argument check never fires: `_no_args` only raises on an empty
   argument list and the wrapper calls it only with a non-empty one. A call
   reaches `func(ctx)` unless `final_name` was never bound.
   */
  lemma InvokeNeverRaises(inner: Inner, ctx: SlashCommandCtx)
    ensures !Invoke(inner, ctx).Raises?
    ensures Invoke(inner, ctx).UnboundName? <==> !inner.allowArgs && ctx.commandArgs != [] && inner.finalName == None
    ensures !Invoke(inner, ctx).UnboundName? ==> Invoke(inner, ctx) == CallsFunc(inner.func, ctx)
  {
  }

  /** The two command tables `ISSUE_COMMANDS` and `PR_COMMANDS`. */
  class CommandTables {
    var issueCommands: map<string, Inner>
    var prCommands: map<string, Inner>

    /** Both tables start empty. */
    constructor ()
      ensures issueCommands == map[] && prCommands == map[]
    {
      issueCommands, prCommands := map[], map[];
    }

    /**
     `register_callback(issue, pull, allow_args, name)(func)`: one fresh
     wrapper, stored under every resolved name in the tables selected by
     `issue` and `pull`, and returned.
     */
    method RegisterCallback(issue: bool, pull: bool, allowArgs: bool, name: NameArg, func: Func)
      returns (inner: Inner)
      modifies this
      ensures fresh(inner) && inner.func == func && inner.allowArgs == allowArgs
      ensures var names := FinalNames(name, func);
              inner.finalName == if names == [] then None else Some(names[|names| - 1])
      ensures issueCommands == if issue then Bind(old(issueCommands), FinalNames(name, func), inner) else old(issueCommands)
      ensures prCommands == if pull then Bind(old(prCommands), FinalNames(name, func), inner) else old(prCommands)
      ensures forall n :: n in FinalNames(name, func) ==>
                && ((n in issueCommands && issueCommands[n] == inner) <==> issue)
                && ((n in prCommands && prCommands[n] == inner) <==> pull)
    {
      var finalNames := FinalNames(name, func);
      inner := new Inner(func, allowArgs);
      ghost var issue0, pr0 := issueCommands, prCommands;
      var i := 0;
      while i < |finalNames|
        invariant 0 <= i <= |finalNames|
        invariant inner.finalName == if i == 0 then None else Some(finalNames[i - 1])
        invariant issueCommands == if issue then Bind(issue0, finalNames[..i], inner) else issue0
        invariant prCommands == if pull then Bind(pr0, finalNames[..i], inner) else pr0
      {
        var finalName := finalNames[i];
        BindNext(issue0, finalNames, i, inner);
        BindNext(pr0, finalNames, i, inner);
        inner.finalName := Some(finalName);
        if issue {
          issueCommands := issueCommands[finalName := inner];
        }
        if pull {
          prCommands := prCommands[finalName := inner];
        }
        i := i + 1;
      }
      assert finalNames[..i] == finalNames;
      BoundIffSelected(old(issueCommands), finalNames, inner, issue, issueCommands);
      BoundIffSelected(old(prCommands), finalNames, inner, pull, prCommands);
    }
  }
}
