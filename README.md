# Extrusion gorelka hub, modelled in Dafny

The `extrusion_gorelka` Home Assistant integration simulates an industrial
burner ("gorelka"). A `Hub` is built from a host and a name; it derives its id
by lower-casing the host and owns exactly one `Gorelka`. A `Gorelka` keeps its
state in fields: a commanded boiler temperature, four measured temperatures,
a fire level, power, night mode, alarm, two fans (speed and on/off) and a
status. Eleven command methods each overwrite one or two of those fields and
then schedule a delayed update. After a random delay, each delayed update calls
every callback registered at that moment. Callbacks are added and removed as
a set.

The model has three modules:

- `GorelkaSpec` (`gorelka_spec.dfy`) holds the device state as a value
  (`DeviceState`) and the commands as a datatype (`Command`). `Apply` gives the
  effect of one command and `Run` the effect of a sequence. The file proves
  what the commands promise:
  - they never touch the readings or any field they do not write;
  - they are blind writes, so each is idempotent and a later command that
    writes the same fields erases an earlier one;
  - commands on disjoint fields commute;
  - switching a fan off keeps its speed;
  - the readings stay at their initial values whatever commands arrive.
- `ExtrusionGorelka` (`hub.dfy`) holds the classes `Hub` and `Gorelka`, with
  the source's fields updated in place. Each command method is specified by
  `Apply` on the object's state. Ghost fields record the commands issued and
  the delayed updates pending and fired. The invariant `Valid()` ties the
  fields to `Run` of the issued commands and says that every command scheduled
  exactly one delayed update. `PublishUpdates` calls each registered callback
  exactly once, in an arbitrary order, and returns the callbacks in call order.
- `Scenarios` (`scenarios.dfy`) holds clients that drive a hub the way the
  entities do, with what they can rely on from the contracts alone.

The read-only properties of `Gorelka` (`temp_main`, `fan1_procent`, `is_on`, …)
are plain reads of the class's fields in the model.

Two entity wrappers suggest limits that the device itself does not keep. The
model follows the device in both cases:
- The fan entity treats speeds as percentages
  (homeassistant/components/extrusion_gorelka/fan.py:55-66). The device stores
  whatever speed it is given, with no clamping to 0..100, so the model uses an
  unclamped `int`.
- The status sensor lists the options "work", "sleep" and "heat_od"
  (homeassistant/components/extrusion_gorelka/sensor.py:255). The device sets
  its status to "work" and never changes it. The model proves that the status
  stays "work", which is one of those options.

## Model

| member | source | states |
|---|---|---|
| `GorelkaSpec.Apply` | homeassistant/components/extrusion_gorelka/hub.py:82-179 | a command keeps the readings (measured temperatures, fire, alarm, status) and every field outside the fields it writes |
| `GorelkaSpec.Run` | homeassistant/components/extrusion_gorelka/hub.py:82-179 | no sequence of commands changes the readings |
| `GorelkaSpec.RunSnoc` | homeassistant/components/extrusion_gorelka/hub.py:82-179 | issuing one more command extends the run by that command's effect |
| `GorelkaSpec.BlindWrite` | homeassistant/components/extrusion_gorelka/hub.py:82-179 | the value a command writes depends on the command alone, not on the prior state |
| `GorelkaSpec.Overwrite` | homeassistant/components/extrusion_gorelka/hub.py:91-179 | a command that writes every field an earlier one wrote erases it (switch_on then switch_off is switch_off; set_fan1_procent then set_fan1_on(p) is set_fan1_on(p)) |
| `GorelkaSpec.Idempotent` | homeassistant/components/extrusion_gorelka/hub.py:91-125 | issuing any command twice is the same as issuing it once |
| `GorelkaSpec.Commute` | homeassistant/components/extrusion_gorelka/hub.py:127-179 | commands on disjoint fields (fan 1 and fan 2, power and night mode, …) commute |
| `GorelkaSpec.RunFrame` | homeassistant/components/extrusion_gorelka/hub.py:82-179 | a field that no command of a sequence writes keeps its value through the sequence |
| `GorelkaSpec.SpeedSurvivesOff` | homeassistant/components/extrusion_gorelka/hub.py:127-152 | set_fan1_procent(p) then set_fan1_off gives speed p, off, and fan 2 untouched; the same for fan 2 |
| `GorelkaSpec.ReadingsStayInitial` | homeassistant/components/extrusion_gorelka/hub.py:53-66 | after any commands from the initial state, the temperatures are 20, fire 1000, no alarm, status "work" (a known mode) |
| `ExtrusionGorelka.Lower` | homeassistant/components/extrusion_gorelka/hub.py:26 | lower-casing keeps the length, maps each character to its lower-case form and leaves no capital letter |
| `ExtrusionGorelka.LowerIdempotent` | homeassistant/components/extrusion_gorelka/hub.py:26 | lower-casing a lower-cased host again changes nothing, so the hub id is in lower case |
| `ExtrusionGorelka.Hub.constructor` | homeassistant/components/extrusion_gorelka/hub.py:21-30 | the hub id is the host lower-cased; exactly one fresh burner with id `hub_id + "_1"`, name `name + " 1"`, back-reference to the hub, initial state and no callbacks; the hub is online |
| `ExtrusionGorelka.Hub.HubId` | homeassistant/components/extrusion_gorelka/hub.py:32-35 | the id is the host lower-cased: same length, no capital letter, already in lower case |
| `ExtrusionGorelka.Hub.TestConnection` | homeassistant/components/extrusion_gorelka/hub.py:37-40 | the connectivity probe always reports success |
| `ExtrusionGorelka.Gorelka.constructor` | homeassistant/components/extrusion_gorelka/hub.py:46-70 | a new burner has every temperature 20, fire 1000, both fans at 0 and off, not on, no night mode, no alarm, status "work", no callbacks and nothing scheduled |
| `ExtrusionGorelka.Gorelka.Online` | homeassistant/components/extrusion_gorelka/hub.py:202-207 | the burner is always online |
| `ExtrusionGorelka.Gorelka.ReadingsFixed` | homeassistant/components/extrusion_gorelka/hub.py:209-247 | in every reachable state the temperature, fire and alarm readings are their initial values and the status is "work" |
| `ExtrusionGorelka.Gorelka.ScheduleDelayedUpdate` | homeassistant/components/extrusion_gorelka/hub.py:89 | a command records itself and adds exactly one pending delayed update |
| `ExtrusionGorelka.Gorelka.SetTempCotel` | homeassistant/components/extrusion_gorelka/hub.py:82-89 | stores the commanded temperature only (the measured `temp_main` is unchanged); one more pending update; callbacks unchanged |
| `ExtrusionGorelka.Gorelka.SwitchOn` | homeassistant/components/extrusion_gorelka/hub.py:91-98 | sets power on and nothing else; one more pending update |
| `ExtrusionGorelka.Gorelka.SwitchOff` | homeassistant/components/extrusion_gorelka/hub.py:100-107 | sets power off and nothing else; one more pending update |
| `ExtrusionGorelka.Gorelka.SwitchNightModeOn` | homeassistant/components/extrusion_gorelka/hub.py:109-116 | sets night mode on and nothing else; one more pending update |
| `ExtrusionGorelka.Gorelka.SwitchNightModeOff` | homeassistant/components/extrusion_gorelka/hub.py:118-125 | sets night mode off and nothing else; one more pending update |
| `ExtrusionGorelka.Gorelka.SetFan1Procent` | homeassistant/components/extrusion_gorelka/hub.py:127-134 | stores fan 1's speed as given, keeps its on flag and every other field; one more pending update |
| `ExtrusionGorelka.Gorelka.SetFan1On` | homeassistant/components/extrusion_gorelka/hub.py:136-143 | fan 1 gets the given speed and is on; fan 2 and all other fields unchanged; one more pending update |
| `ExtrusionGorelka.Gorelka.SetFan1Off` | homeassistant/components/extrusion_gorelka/hub.py:145-152 | fan 1 is off with its speed kept; nothing else changes; one more pending update |
| `ExtrusionGorelka.Gorelka.SetFan2Procent` | homeassistant/components/extrusion_gorelka/hub.py:154-161 | stores fan 2's speed as given, keeps its on flag and every other field; one more pending update |
| `ExtrusionGorelka.Gorelka.SetFan2On` | homeassistant/components/extrusion_gorelka/hub.py:163-170 | fan 2 gets the given speed and is on; fan 1 and all other fields unchanged; one more pending update |
| `ExtrusionGorelka.Gorelka.SetFan2Off` | homeassistant/components/extrusion_gorelka/hub.py:172-179 | fan 2 is off with its speed kept; nothing else changes; one more pending update |
| `ExtrusionGorelka.Gorelka.RegisterCallback` | homeassistant/components/extrusion_gorelka/hub.py:186-188 | adds the callback to the set; registering it again keeps one copy; device state unchanged |
| `ExtrusionGorelka.Gorelka.RemoveCallback` | homeassistant/components/extrusion_gorelka/hub.py:190-192 | the callback is absent afterwards; removing an absent callback changes nothing and never fails |
| `ExtrusionGorelka.Gorelka.PublishUpdates` | homeassistant/components/extrusion_gorelka/hub.py:196-200 | calls exactly the registered callbacks, each exactly once |
| `ExtrusionGorelka.Gorelka.DelayedUpdate` | homeassistant/components/extrusion_gorelka/hub.py:181-184 | one pending update fires and calls, once each, the callbacks registered when it fires; device state unchanged |
| `Scenarios.NewHub` | homeassistant/components/extrusion_gorelka/hub.py:21-35 | a hub for host "Hub" and name "Test" has id "hub" and a burner "hub_1" named "Test 1", online |
| `Scenarios.FanOnThenNotify` | homeassistant/components/extrusion_gorelka/hub.py:136-143 | set_fan1_on(50) reads back 50 and on before any update; the update then calls the registered callback once |
| `Scenarios.SpeedThenOff` | homeassistant/components/extrusion_gorelka/hub.py:127-152 | set_fan1_procent(70) then set_fan1_off reads back 70, off |
| `Scenarios.RemovedBeforeUpdate` | homeassistant/components/extrusion_gorelka/hub.py:186-200 | a callback registered twice and removed before a pending update fires is not called; the other is called once |

## Left out

- The random delay of `delayed_update` (`asyncio.sleep(random.randint(1, 10))`) and the event-loop task creation are left out. The model keeps only a ghost count of pending and fired updates. `DelayedUpdate` fires any one pending update; because every update notifies the callbacks registered when it fires, the model does not need to say which command's update fires.
- ExtrusionGorelka.Gorelka.SetTempCotel: gives the effect of the awaited call. `set_temp_cotel` is a coroutine, so its assignment and the scheduling of its delayed update happen only when a caller awaits it; the model applies both at the call.
- The one-second sleep of `test_connection` is left out; only its result is modelled.
- The `hass` handle held by `Hub` and the event loop held by `Gorelka` are not modelled. They are only passed through or used for the scheduling left out above.
- `firmware_version`, built from a random digit, is left out as nondeterministic static metadata. `model` and the hub's `manufacturer` are constants.
- The `position` property is left out. It reads `_current_position`, which is never assigned, so it would always raise.
- What a callback does is not modelled. The integration's callbacks are `async_write_ha_state`, a framework call. Callbacks are opaque identities that return normally. A callback that raises, or that adds or removes callbacks while `publish_updates` iterates, is outside the model.
- The entity wrappers (sensor.py, fan.py, binary_sensor.py, switch.py) are left out, and so is their `available` property, which is `gorelka.online and hub.online`. They only forward to the burner's getters and commands. The test fixture conftest.py has no behaviour.
- ExtrusionGorelka.Lower: lower-cases ASCII capitals only, because Python's `str.lower` applies full Unicode case mapping, which is not modelled.
- ExtrusionGorelka.Gorelka.SetFan1On: takes an integer speed only, because the fan entity may pass `None` when Home Assistant turns a fan on without a percentage; the source would then store `None` as the speed.
- ExtrusionGorelka.Gorelka.SetFan2On: takes an integer speed only, for the same reason as `SetFan1On`.
