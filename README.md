# UR real-time publisher: name and configuration setup

This project models the set-up part of `RTPublisher`, the consumer in the UR
modern driver that turns each real-time state packet of a six-axis UR arm into
joint-state, wrench, tool-velocity, transform and temperature messages.

Before any packet arrives, the publisher is built from four inputs: a joint
prefix, the base frame name, the tool frame name and a temperature-only flag
that defaults to `false`. It stores the two frame names and the flag as given.
It then derives two ordered lists of six names by putting the prefix in front
of each entry of two fixed tables:

- `JOINTS`: `shoulder_pan_joint`, `shoulder_lift_joint`, `elbow_joint`,
  `wrist_1_joint`, `wrist_2_joint`, `wrist_3_joint`;
- `LINKS`: `shoulder_link`, `upper_arm_link`, `forearm_link`,
  `wrist_1_link`, `wrist_2_link`, `wrist_3_link`.

The three lifecycle hooks `setupConsumer`, `teardownConsumer` and
`stopConsumer` do nothing.

Everything is in `rt_publisher.dfy`, module `RtPublisher`:

- `Joints` and `Links` are the two tables.
- `Prefixed(prefix, table)` is the specification of one name-building loop. It
  is the list you get by appending `prefix + entry` for each table entry, in
  table order, to an empty list.
- Class `RTPublisher` has the fields `jointNames`, `linkNames`, `baseFrame`,
  `toolFrame` and `tempOnly`. Its constructor stores the configuration first,
  as the C++ initialiser list does. It then runs the two `push_back` loops, and
  each loop is proved against `Prefixed`.
- The class keeps the prefix in a ghost field `jointPrefix`, because the C++
  class does not store it. This field exists only to state `Valid()`: both
  name lists come from one prefix.
- The lemmas prove what the name lists are: six names each, in table order,
  prefix-then-entry at every index, and no name repeated. They also prove that
  removing the prefix gives back the table entry, and that an empty prefix
  gives the bare tables.

## Model

| member | source | states |
|---|---|---|
| `RtPublisher.Prefixed` | universal_robot/ur_modern_driver/include/ur_modern_driver/ros/rt_publisher.h:76-83 | A name-building loop pushes exactly one name per table entry, so the list is as long as the table |
| `RtPublisher.PrefixedAt` | universal_robot/ur_modern_driver/include/ur_modern_driver/ros/rt_publisher.h:76-83 | The i-th derived name is the prefix followed by the i-th table entry, so table order is kept |
| `RtPublisher.PrefixedRoundTrip` | universal_robot/ur_modern_driver/include/ur_modern_driver/ros/rt_publisher.h:76-83 | Every derived name begins with the prefix, and dropping as many leading characters as the prefix has recovers exactly the table entry it was built from |
| `RtPublisher.PrefixedEmpty` | universal_robot/ur_modern_driver/include/ur_modern_driver/ros/rt_publisher.h:76-83 | With an empty prefix the derived list equals the table verbatim |
| `RtPublisher.PrefixedDistinct` | universal_robot/ur_modern_driver/include/ur_modern_driver/ros/rt_publisher.h:76-83 | If the table entries are pairwise distinct, the derived names are pairwise distinct for every prefix |
| `RtPublisher.TablesDistinct` | universal_robot/ur_modern_driver/include/ur_modern_driver/ros/rt_publisher.h:37-41 | `JOINTS` and `LINKS` each have six entries and no repeated entry |
| `RtPublisher.DerivedNames` | universal_robot/ur_modern_driver/include/ur_modern_driver/ros/rt_publisher.h:37-83 | For any prefix, the joint and link lists have six names each, name i is the prefix plus `JOINTS[i]` (or `LINKS[i]`), no two joint names and no two link names are equal, and an empty prefix gives `JOINTS` and `LINKS` themselves |
| `RtPublisher.RTPublisher.constructor` | universal_robot/ur_modern_driver/include/ur_modern_driver/ros/rt_publisher.h:67-84 | After construction, `jointNames` and `linkNames` are the prefix applied to `JOINTS` and `LINKS` in order, with six entries each. The base frame, tool frame and temperature-only flag equal the arguments unchanged |
| `RtPublisher.NewWithDefaultFlag` | universal_robot/ur_modern_driver/include/ur_modern_driver/ros/rt_publisher.h:67 | A publisher constructed without the temperature-only argument has `tempOnly == false`. Its names and frames are set exactly as when the flag is given |
| `RtPublisher.RTPublisher.SetupConsumer` | universal_robot/ur_modern_driver/include/ur_modern_driver/ros/rt_publisher.h:91-93 | The setup hook changes no field of the publisher |
| `RtPublisher.RTPublisher.TeardownConsumer` | universal_robot/ur_modern_driver/include/ur_modern_driver/ros/rt_publisher.h:94-96 | The teardown hook changes no field of the publisher |
| `RtPublisher.RTPublisher.StopConsumer` | universal_robot/ur_modern_driver/include/ur_modern_driver/ros/rt_publisher.h:97-99 | The stop hook changes no field of the publisher |
| `RtPublisher.RunHooks` | universal_robot/ur_modern_driver/include/ur_modern_driver/ros/rt_publisher.h:91-99 | Any sequence of hook calls, of any length and in any order, leaves the publisher exactly as it was |

## Left out

- Publishing: `publishJoints`, `publishWrench`, `publishTool`, `publishTransform`, `publishTemperature`, `publish` and the four `consume` overloads are only declared in the header. Their bodies are not part of this model, and their work is message I/O on floating-point data.
- The ROS node handle, the four `advertise` calls and the transform broadcaster are external library I/O. The model has no counterpart for them.
- `hardware_interface.h` holds class declarations and, in the base class `HardwareInterface`, empty inline bodies for `start`, `stop` and `reset`; these change nothing and are not modelled. The joint, wrench, velocity and position interfaces are defined in a source file that is not part of this model, so no velocity rate limit or position dispatch is modelled.
- `vpQuaternionVector.h` declares floating-point quaternion arithmetic with no bodies, on top of an external vision library.
- `names.h` declares external strings and a topic-remapping routine `remap` without its body. It contains no logic.
- The real-time loop, the hand-over of packets between threads and staleness timing do not appear in the modelled code.
- RTPublisher.constructor: the C++ constructor takes its string arguments by reference. The model passes them as values, which is the same here because the constructor copies them and never writes them.
- RTPublisher.constructor: its contract gives the name lists as `Prefixed` applied to the tables. The per-index form, distinctness and the empty-prefix case are stated once, for any prefix, by `DerivedNames`, rather than repeated in the constructor's contract.
