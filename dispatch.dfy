/**
 * The plugin's entry point `$.idleLogout(method, ...)`: a property of the `methods`
 * table runs that method with the remaining arguments; an object or a falsy first
 * argument runs `init` with the arguments as given; anything else raises
 * `$.error('Method ' + method + ' does not exist on jQuery.idleLogout')`.
 */
module Entry {
  import opened Js

  /** The own properties of the `methods` table. */
  const MethodNames: set<string> :=
    {"init", "enable", "disable", "handleActivity", "update", "resetFromTime",
     "logout", "startCountdown", "cancelCountdown"}

  datatype Target =
    | Invoke(name: string)   // `methods[name].apply(this, rest of the arguments)`
    | InitWith(arg: Value)   // `methods.init.apply(this, arguments)`: `arg` is the options
    | Fail(message: string)  // what `$.error` throws

  function ErrorMessage(v: Value): string {
    "Method " + Key(v) + " does not exist on jQuery.idleLogout"
  }

  function Dispatch(m: Value): (r: Target)
    ensures r.Invoke? <==> Key(m) in MethodNames
    ensures r.Invoke? ==> r.name == Key(m)
    ensures m.Str? && m.s in MethodNames ==> r == Invoke(m.s)
    ensures r.InitWith? <==> m.Obj? || m.Null? || m.Undefined?
                             || m == Bool(false) || m == Number(0) || m == Str("")
    ensures r.InitWith? ==> r.arg == m
    ensures r.Fail? <==> !r.Invoke? && !r.InitWith?
    ensures r.Fail? ==> r.message == "Method " + Key(m) + " does not exist on jQuery.idleLogout"
  {
    if Key(m) in MethodNames then Invoke(Key(m))
    else if IsObject(m) || !Truthy(m) then InitWith(m)
    else Fail(ErrorMessage(m))
  }

  /** A number never names a method: its key is made of digits and a sign. */
  lemma NumberNeverInvokes(n: int)
    ensures !Dispatch(Number(n)).Invoke?
  {
    var c := IntToString(n)[0];
    assert c == '-' || IsDigit(c);
    forall name | name in MethodNames ensures name[0] != c {
    }
  }
}
