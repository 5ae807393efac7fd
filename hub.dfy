/** The simulated hub and its burner device, as objects updated in place.

    A Hub owns one Gorelka (burner). A Gorelka keeps its state in fields,
    changes them through command methods and, after every command, schedules
    one delayed update that later calls each registered callback once.
    Callbacks are opaque identities of type Cb. */
module ExtrusionGorelka {
  import opened GorelkaSpec

  /** An ASCII capital letter. */
  predicate IsUpper(ch: char) {
    'A' <= ch <= 'Z'
  }

  /** The lower-case form of one character (ASCII letters only). */
  function LowerChar(ch: char): char {
    if IsUpper(ch) then (ch as int - 'A' as int + 'a' as int) as char else ch
  }

  /** The lower-case form of a host name: every capital letter is replaced by
      its small letter, every other character is kept, and no capital letter
      is left. */
  function Lower(s: string): (r: string)
    ensures |r| == |s|
    ensures forall i :: 0 <= i < |s| ==> r[i] == LowerChar(s[i])
    ensures forall i :: 0 <= i < |r| ==> !IsUpper(r[i])
  {
    if s == [] then [] else [LowerChar(s[0])] + Lower(s[1..])
  }

  /** Lower-casing a string that is already lower case changes nothing; in
      particular a hub id is in lower case. */
  lemma LowerIdempotent(s: string)
    ensures Lower(Lower(s)) == Lower(s)
  {
    var r := Lower(s);
    assert forall i :: 0 <= i < |r| ==> LowerChar(r[i]) == r[i];
  }

  /** The hub: an id derived from its host, the burners it owns and an
      online flag. */
  class Hub<Cb(==)> {
    static const manufacturer: string := "ExtrusIon"

    const host: string
    const name: string
    const id: string
    var gorelka: seq<Gorelka<Cb>>
    var online: bool

    /** The hub's invariant: its id is its host lower-cased, it owns exactly
        one burner whose id and name derive from the hub's, and it is online. */
    ghost predicate Valid()
      reads this
    {
      id == Lower(host) && online &&
      |gorelka| == 1 && gorelka[0].hub == this &&
      gorelka[0].id == id + "_1" && gorelka[0].name == name + " 1"
    }

    /** A hub with one burner in its initial state and no callbacks. */
    constructor (host: string, name: string)
      ensures Valid() && this.host == host && this.name == name
      ensures fresh(gorelka[0]) && gorelka[0].Valid()
      ensures gorelka[0].State() == Initial && gorelka[0].callbacks == {}
      ensures gorelka[0].history == [] && gorelka[0].pending == 0
    {
      this.host := host;
      this.name := name;
      id := Lower(host);
      new;
      var g := new Gorelka(id + "_1", name + " 1", this);
      gorelka := [g];
      online := true;
    }

    /** The hub's id: its host in lower case. */
    function HubId(): (r: string)
      requires Valid()
      reads this
      ensures r == Lower(host)
      ensures |r| == |host| && forall i :: 0 <= i < |r| ==> !IsUpper(r[i])
      ensures Lower(r) == r
    {
      LowerIdempotent(host);
      id
    }

    /** The connectivity probe; in this simulation it always succeeds. */
    method TestConnection() returns (ok: bool)
      ensures ok
    {
      ok := true;
    }
  }

  /** One simulated burner. */
  class Gorelka<Cb(==)> {
    const id: string
    const name: string
    const hub: Hub<Cb>
    const model: string := "Gorelka"

    var callbacks: set<Cb>

    var setTempMain: int
    var tempMain: int
    var tempExt: int
    var tempDisel: int
    var tempOil: int
    var isOn: bool
    var fire: int
    var isNightMode: bool
    var isAlarm: bool
    var fan1Procent: int
    var fan1On: bool
    var fan2Procent: int
    var fan2On: bool
    var mainStatus: string

    /** The commands issued so far, in order. */
    ghost var history: seq<Command>
    /** Delayed updates scheduled and not yet fired. */
    ghost var pending: nat
    /** Delayed updates that have fired. */
    ghost var fired: nat

    /** The fields, as one value. */
    function State(): DeviceState
      reads this
    {
      DeviceState(setTempMain, tempMain, tempExt, tempDisel, tempOil, isOn, fire,
                  isNightMode, isAlarm, Fan(fan1Procent, fan1On), Fan(fan2Procent, fan2On), mainStatus)
    }

    /** The burner's invariant: its state is what the commands issued so far
        make of the initial state, and every command scheduled exactly one
        delayed update, which is either still pending or has fired. */
    ghost predicate Valid()
      reads this
    {
      State() == Run(Initial, history) && pending + fired == |history|
    }

    /** A burner in its initial state: every temperature 20, fire 1000, both
        fans at 0 and off, not on, no night mode, no alarm, status "work", and
        no callbacks. */
    constructor (gorelkaId: string, name: string, hub: Hub<Cb>)
      ensures Valid()
      ensures id == gorelkaId && this.name == name && this.hub == hub
      ensures State() == Initial && callbacks == {}
      ensures history == [] && pending == 0 && fired == 0
    {
      id := gorelkaId;
      this.hub := hub;
      this.name := name;
      callbacks := {};
      setTempMain, tempMain, tempExt, tempDisel, tempOil := 20, 20, 20, 20, 20;
      isOn := false;
      fire := 1000;
      isNightMode := false;
      isAlarm := false;
      fan1Procent, fan1On := 0, false;
      fan2Procent, fan2On := 0, false;
      mainStatus := "work";
      history, pending, fired := [], 0, 0;
    }

    /** The burner is always online. */
    function Online(): (r: bool)
      ensures r
    {
      true
    }

    /** The readings never move from their initial values, whatever commands
        were issued, and the status is always a known mode. */
    lemma ReadingsFixed()
      requires Valid()
      ensures tempMain == 20 && tempExt == 20 && tempDisel == 20 && tempOil == 20
      ensures fire == 1000 && !isAlarm && mainStatus == "work" && mainStatus in Modes
    {
      ReadingsStayInitial(history);
    }

    /** Records that command c was issued and schedules its delayed update,
        once the fields already hold the command's effect. */
    ghost method ScheduleDelayedUpdate(c: Command)
      requires State() == Apply(Run(Initial, history), c) && pending + fired == |history|
      modifies this
      ensures Valid()
      ensures history == old(history) + [c] && pending == old(pending) + 1 && fired == old(fired)
      ensures State() == old(State()) && callbacks == old(callbacks)
    {
      RunSnoc(Initial, history, c);
      history := history + [c];
      pending := pending + 1;
    }

    /** Sets the commanded boiler temperature; the measured one is untouched. */
    method SetTempCotel(temp: int)
      requires Valid()
      modifies this
      ensures Valid()
      ensures State() == Apply(old(State()), Command.SetTempCotel(temp))
      ensures history == old(history) + [Command.SetTempCotel(temp)]
      ensures pending == old(pending) + 1 && fired == old(fired) && callbacks == old(callbacks)
    {
      setTempMain := temp;
      ScheduleDelayedUpdate(Command.SetTempCotel(temp));
    }

    method SwitchOn()
      requires Valid()
      modifies this
      ensures Valid()
      ensures State() == Apply(old(State()), Command.SwitchOn)
      ensures history == old(history) + [Command.SwitchOn]
      ensures pending == old(pending) + 1 && fired == old(fired) && callbacks == old(callbacks)
    {
      isOn := true;
      ScheduleDelayedUpdate(Command.SwitchOn);
    }

    method SwitchOff()
      requires Valid()
      modifies this
      ensures Valid()
      ensures State() == Apply(old(State()), Command.SwitchOff)
      ensures history == old(history) + [Command.SwitchOff]
      ensures pending == old(pending) + 1 && fired == old(fired) && callbacks == old(callbacks)
    {
      isOn := false;
      ScheduleDelayedUpdate(Command.SwitchOff);
    }

    method SwitchNightModeOn()
      requires Valid()
      modifies this
      ensures Valid()
      ensures State() == Apply(old(State()), Command.SwitchNightModeOn)
      ensures history == old(history) + [Command.SwitchNightModeOn]
      ensures pending == old(pending) + 1 && fired == old(fired) && callbacks == old(callbacks)
    {
      isNightMode := true;
      ScheduleDelayedUpdate(Command.SwitchNightModeOn);
    }

    method SwitchNightModeOff()
      requires Valid()
      modifies this
      ensures Valid()
      ensures State() == Apply(old(State()), Command.SwitchNightModeOff)
      ensures history == old(history) + [Command.SwitchNightModeOff]
      ensures pending == old(pending) + 1 && fired == old(fired) && callbacks == old(callbacks)
    {
      isNightMode := false;
      ScheduleDelayedUpdate(Command.SwitchNightModeOff);
    }

    /** Sets fan 1's speed, unclamped, without switching it on or off. */
    method SetFan1Procent(procent: int)
      requires Valid()
      modifies this
      ensures Valid()
      ensures State() == Apply(old(State()), Command.SetFan1Procent(procent))
      ensures history == old(history) + [Command.SetFan1Procent(procent)]
      ensures pending == old(pending) + 1 && fired == old(fired) && callbacks == old(callbacks)
    {
      fan1Procent := procent;
      ScheduleDelayedUpdate(Command.SetFan1Procent(procent));
    }

    /** Switches fan 1 on at the given speed. */
    method SetFan1On(procent: int)
      requires Valid()
      modifies this
      ensures Valid()
      ensures State() == Apply(old(State()), Command.SetFan1On(procent))
      ensures history == old(history) + [Command.SetFan1On(procent)]
      ensures pending == old(pending) + 1 && fired == old(fired) && callbacks == old(callbacks)
    {
      fan1Procent := procent;
      fan1On := true;
      ScheduleDelayedUpdate(Command.SetFan1On(procent));
    }

    /** Switches fan 1 off; its speed is kept. */
    method SetFan1Off()
      requires Valid()
      modifies this
      ensures Valid()
      ensures State() == Apply(old(State()), Command.SetFan1Off)
      ensures history == old(history) + [Command.SetFan1Off]
      ensures pending == old(pending) + 1 && fired == old(fired) && callbacks == old(callbacks)
    {
      fan1On := false;
      ScheduleDelayedUpdate(Command.SetFan1Off);
    }

    /** Sets fan 2's speed, unclamped, without switching it on or off. */
    method SetFan2Procent(procent: int)
      requires Valid()
      modifies this
      ensures Valid()
      ensures State() == Apply(old(State()), Command.SetFan2Procent(procent))
      ensures history == old(history) + [Command.SetFan2Procent(procent)]
      ensures pending == old(pending) + 1 && fired == old(fired) && callbacks == old(callbacks)
    {
      fan2Procent := procent;
      ScheduleDelayedUpdate(Command.SetFan2Procent(procent));
    }

    /** Switches fan 2 on at the given speed. */
    method SetFan2On(procent: int)
      requires Valid()
      modifies this
      ensures Valid()
      ensures State() == Apply(old(State()), Command.SetFan2On(procent))
      ensures history == old(history) + [Command.SetFan2On(procent)]
      ensures pending == old(pending) + 1 && fired == old(fired) && callbacks == old(callbacks)
    {
      fan2Procent := procent;
      fan2On := true;
      ScheduleDelayedUpdate(Command.SetFan2On(procent));
    }

    /** Switches fan 2 off; its speed is kept. */
    method SetFan2Off()
      requires Valid()
      modifies this
      ensures Valid()
      ensures State() == Apply(old(State()), Command.SetFan2Off)
      ensures history == old(history) + [Command.SetFan2Off]
      ensures pending == old(pending) + 1 && fired == old(fired) && callbacks == old(callbacks)
    {
      fan2On := false;
      ScheduleDelayedUpdate(Command.SetFan2Off);
    }

    /** Adds a callback; registering one that is already there keeps one copy. */
    method RegisterCallback(cb: Cb)
      requires Valid()
      modifies this
      ensures Valid()
      ensures callbacks == old(callbacks) + {cb}
      ensures |callbacks| == |old(callbacks)| + (if cb in old(callbacks) then 0 else 1)
      ensures State() == old(State()) && history == old(history)
      ensures pending == old(pending) && fired == old(fired)
    {
      if cb in callbacks {
        assert callbacks + {cb} == callbacks;
      }
      callbacks := callbacks + {cb};
    }

    /** Removes a callback if it is there; removing an absent one does nothing. */
    method RemoveCallback(cb: Cb)
      requires Valid()
      modifies this
      ensures Valid()
      ensures callbacks == old(callbacks) - {cb} && cb !in callbacks
      ensures cb !in old(callbacks) ==> callbacks == old(callbacks)
      ensures State() == old(State()) && history == old(history)
      ensures pending == old(pending) && fired == old(fired)
    {
      callbacks := callbacks - {cb};
    }

    /** Calls every registered callback once, in no particular order, and
        returns the callbacks in the order they were called. */
    method PublishUpdates() returns (invoked: seq<Cb>)
      ensures forall c :: c in invoked <==> c in callbacks
      ensures forall i, j :: 0 <= i < j < |invoked| ==> invoked[i] != invoked[j]
      ensures |invoked| == |callbacks|
    {
      invoked := [];
      var rest := callbacks;
      while rest != {}
        invariant rest <= callbacks
        invariant forall c :: c in invoked <==> c in callbacks - rest
        invariant forall i, j :: 0 <= i < j < |invoked| ==> invoked[i] != invoked[j]
        invariant |invoked| + |rest| == |callbacks|
        decreases rest
      {
        var c :| c in rest;
        assert c !in invoked;
        invoked := invoked + [c];
        rest := rest - {c};
      }
    }

    /** One scheduled delayed update fires: after its delay it notifies the
        callbacks registered at that moment, so a callback removed after the
        command that scheduled it is not called. */
    method DelayedUpdate() returns (invoked: seq<Cb>)
      requires Valid() && pending > 0
      modifies this
      ensures Valid()
      ensures pending == old(pending) - 1 && fired == old(fired) + 1
      ensures State() == old(State()) && history == old(history) && callbacks == old(callbacks)
      ensures forall c :: c in invoked <==> c in callbacks
      ensures forall i, j :: 0 <= i < j < |invoked| ==> invoked[i] != invoked[j]
      ensures |invoked| == |callbacks|
    {
      pending := pending - 1;
      fired := fired + 1;
      invoked := PublishUpdates();
    }
  }
}
