/** Clients of the hub and its burner, driving the objects the way the
    Home Assistant entities do, and what they can rely on from the contracts
    alone. */
module Scenarios {
  import opened GorelkaSpec
  import opened ExtrusionGorelka

  /** A hub built for host "Hub" and name "Test" has id "hub" and one burner
      "hub_1" named "Test 1", which is online. */
  method NewHub<Cb(==)>() returns (hid: string, gid: string, gname: string, online: bool)
    ensures hid == "hub" && gid == "hub_1" && gname == "Test 1" && online
  {
    var hub := new Hub<Cb>("Hub", "Test");
    var g := hub.gorelka[0];
    assert Lower("Hub") == [LowerChar('H')] + Lower("ub");
    hid := hub.HubId();
    gid, gname := g.id, g.name;
    online := g.Online() && hub.online;
  }

  /** Switching fan 1 on at 50% is visible at once, before any delayed update
      fires; when the update fires, the callback registered earlier is called
      once. */
  method FanOnThenNotify<Cb(==)>(cb: Cb) returns (speed: int, on: bool, invoked: seq<Cb>)
    ensures speed == 50 && on
    ensures invoked == [cb]
  {
    var hub := new Hub<Cb>("h", "Test");
    var g := hub.gorelka[0];
    g.RegisterCallback(cb);
    g.SetFan1On(50);
    speed, on := g.fan1Procent, g.fan1On;
    invoked := g.DelayedUpdate();
    assert invoked[0] in {cb};
  }

  /** Setting fan 1 to 70% and then switching it off leaves it at 70%, off. */
  method SpeedThenOff<Cb(==)>() returns (speed: int, on: bool)
    ensures speed == 70 && !on
  {
    var hub := new Hub<Cb>("h", "Test");
    var g := hub.gorelka[0];
    g.SetFan1Procent(70);
    g.SetFan1Off();
    speed, on := g.fan1Procent, g.fan1On;
  }

  /** Callback a is registered twice and b once; a command is issued; a is
      removed before the command's delayed update fires. The update then
      calls b alone, once. */
  method RemovedBeforeUpdate<Cb(==)>(a: Cb, b: Cb) returns (invoked: seq<Cb>)
    requires a != b
    ensures invoked == [b]
  {
    var hub := new Hub<Cb>("h", "Test");
    var g := hub.gorelka[0];
    g.RegisterCallback(a);
    g.RegisterCallback(b);
    g.RegisterCallback(a);
    g.SwitchOn();
    g.RemoveCallback(a);
    assert g.callbacks == {b};
    invoked := g.DelayedUpdate();
    assert invoked[0] in {b};
  }
}
