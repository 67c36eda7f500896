/**
 * The name-and-configuration setup of the UR real-time state publisher.
 *
 * A publisher is built from a caller-supplied joint prefix, the names of the
 * base and tool frames, and a temperature-only flag. It derives the six joint
 * names and the six link names of the arm by putting the prefix in front of
 * each entry of two fixed tables, in table order. The lifecycle hooks of the
 * publisher do nothing.
 */
module RtPublisher {

  /** The joint suffixes of a six-axis UR arm, base to tool. */
  const Joints: seq<string> := [
    "shoulder_pan_joint", "shoulder_lift_joint", "elbow_joint",
    "wrist_1_joint", "wrist_2_joint", "wrist_3_joint"
  ]

  /** The links whose origins lie in the joints above, in the same order. */
  const Links: seq<string> := [
    "shoulder_link", "upper_arm_link", "forearm_link",
    "wrist_1_link", "wrist_2_link", "wrist_3_link"
  ]

  /** No two entries of `s` are equal. */
  predicate Distinct(s: seq<string>) {
    forall i, j :: 0 <= i < j < |s| ==> s[i] != s[j]
  }

  /**
   * The names obtained by appending, for each entry of `table` in order,
   * `prefix` followed by that entry to an initially empty list.
   */
  function Prefixed(prefix: string, table: seq<string>): (names: seq<string>)
    ensures |names| == |table|
  {
    if table == [] then []
    else Prefixed(prefix, table[..|table| - 1]) + [prefix + table[|table| - 1]]
  }

  /** The i-th derived name is the prefix followed by the i-th table entry. */
  lemma {:induction false} PrefixedAt(prefix: string, table: seq<string>, i: nat)
    requires i < |table|
    ensures Prefixed(prefix, table)[i] == prefix + table[i]
  {
    if i < |table| - 1 {
      PrefixedAt(prefix, table[..|table| - 1], i);
    }
  }

  /**
   * Every derived name starts with the prefix, and dropping the first
   * |prefix| characters gives back exactly the table entry it came from.
   */
  lemma PrefixedRoundTrip(prefix: string, table: seq<string>)
    ensures forall i :: 0 <= i < |table| ==>
      prefix <= Prefixed(prefix, table)[i] &&
      Prefixed(prefix, table)[i][|prefix|..] == table[i]
  {
    forall i | 0 <= i < |table|
      ensures prefix <= Prefixed(prefix, table)[i]
      ensures Prefixed(prefix, table)[i][|prefix|..] == table[i]
    {
      PrefixedAt(prefix, table, i);
      assert (prefix + table[i])[|prefix|..] == table[i];
    }
  }

  /** With an empty prefix the derived names are the table itself. */
  lemma {:induction false} PrefixedEmpty(table: seq<string>)
    ensures Prefixed("", table) == table
  {
    if table != [] {
      var init := table[..|table| - 1];
      PrefixedEmpty(init);
      assert "" + table[|table| - 1] == table[|table| - 1];
      assert init + [table[|table| - 1]] == table;
    }
  }

  /** Putting the same prefix in front of two strings keeps them apart. */
  lemma PrefixCancels(prefix: string, a: string, b: string)
    requires prefix + a == prefix + b
    ensures a == b
  {
    assert a == (prefix + a)[|prefix|..];
    assert b == (prefix + b)[|prefix|..];
  }

  /** Distinct table entries give distinct names, whatever the prefix. */
  lemma PrefixedDistinct(prefix: string, table: seq<string>)
    requires Distinct(table)
    ensures Distinct(Prefixed(prefix, table))
  {
    var names := Prefixed(prefix, table);
    forall i, j | 0 <= i < j < |names|
      ensures names[i] != names[j]
    {
      PrefixedAt(prefix, table, i);
      PrefixedAt(prefix, table, j);
      if names[i] == names[j] {
        PrefixCancels(prefix, table[i], table[j]);
      }
    }
  }

  /** Both fixed tables have six entries and no repeated entry. */
  lemma TablesDistinct()
    ensures |Joints| == 6 && Distinct(Joints)
    ensures |Links| == 6 && Distinct(Links)
  {
  }

  /**
   * What the publisher's two name lists are for a given prefix: six names
   * each, in table order, each the prefix followed by its table entry, no
   * name repeated, and the bare tables when the prefix is empty.
   */
  lemma DerivedNames(prefix: string)
    ensures |Prefixed(prefix, Joints)| == 6 && |Prefixed(prefix, Links)| == 6
    ensures forall i :: 0 <= i < 6 ==> Prefixed(prefix, Joints)[i] == prefix + Joints[i]
    ensures forall i :: 0 <= i < 6 ==> Prefixed(prefix, Links)[i] == prefix + Links[i]
    ensures Distinct(Prefixed(prefix, Joints)) && Distinct(Prefixed(prefix, Links))
    ensures prefix == "" ==> Prefixed(prefix, Joints) == Joints && Prefixed(prefix, Links) == Links
  {
    forall i | 0 <= i < 6
      ensures Prefixed(prefix, Joints)[i] == prefix + Joints[i]
      ensures Prefixed(prefix, Links)[i] == prefix + Links[i]
    {
      PrefixedAt(prefix, Joints, i);
      PrefixedAt(prefix, Links, i);
    }
    TablesDistinct();
    PrefixedDistinct(prefix, Joints);
    PrefixedDistinct(prefix, Links);
    if prefix == "" {
      PrefixedEmpty(Joints);
      PrefixedEmpty(Links);
    }
  }

  /**
   * The real-time publisher's configuration. The message publishers and the
   * transform broadcaster it also holds are not part of this model.
   */
  class RTPublisher {
    var jointNames: seq<string>
    var linkNames: seq<string>
    var baseFrame: string
    var toolFrame: string
    var tempOnly: bool

    /** The prefix the names were derived from; the publisher does not keep it. */
    ghost var jointPrefix: string

    /** The two name lists are derived from one prefix and the fixed tables. */
    ghost predicate Valid()
      reads this
    {
      jointNames == Prefixed(jointPrefix, Joints) &&
      linkNames == Prefixed(jointPrefix, Links)
    }

    constructor (jointPrefix: string, baseFrame: string, toolFrame: string, tempOnly: bool := false)
      ensures Valid() && this.jointPrefix == jointPrefix
      ensures jointNames == Prefixed(jointPrefix, Joints)
      ensures linkNames == Prefixed(jointPrefix, Links)
      ensures |jointNames| == 6 && |linkNames| == 6
      ensures this.baseFrame == baseFrame && this.toolFrame == toolFrame
      ensures this.tempOnly == tempOnly
    {
      this.baseFrame := baseFrame;
      this.toolFrame := toolFrame;
      this.tempOnly := tempOnly;
      this.jointPrefix := jointPrefix;
      jointNames := [];
      linkNames := [];
      new;
      for i := 0 to |Joints|
        invariant jointNames == Prefixed(jointPrefix, Joints[..i])
        modifies this`jointNames
      {
        assert Joints[..i + 1][..i] == Joints[..i];
        jointNames := jointNames + [jointPrefix + Joints[i]];
      }
      for i := 0 to |Links|
        invariant linkNames == Prefixed(jointPrefix, Links[..i])
        modifies this`linkNames
      {
        assert Links[..i + 1][..i] == Links[..i];
        linkNames := linkNames + [jointPrefix + Links[i]];
      }
      assert Joints[..|Joints|] == Joints;
      assert Links[..|Links|] == Links;
    }

    /** The setup hook; its body is empty. */
    method SetupConsumer()
      ensures unchanged(this)
    {
    }

    /** The teardown hook; its body is empty. */
    method TeardownConsumer()
      ensures unchanged(this)
    {
    }

    /** The stop hook; its body is empty. */
    method StopConsumer()
      ensures unchanged(this)
    {
    }
  }

  /** The three lifecycle hooks a consumer offers to its driver. */
  datatype Hook = Setup | Teardown | Stop

  /**
   * Any number of lifecycle hook calls, in any order, leave the publisher's
   * names and configuration as they were.
   */
  method RunHooks(p: RTPublisher, hooks: seq<Hook>)
    ensures unchanged(p)
  {
    for k := 0 to |hooks| {
      match hooks[k]
      case Setup => p.SetupConsumer();
      case Teardown => p.TeardownConsumer();
      case Stop => p.StopConsumer();
    }
  }

  /**
   * A publisher built without the temperature-only flag has `tempOnly` false,
   * and its names and frames are derived exactly as when the flag is given.
   */
  method NewWithDefaultFlag(jointPrefix: string, baseFrame: string, toolFrame: string)
    returns (p: RTPublisher)
    ensures !p.tempOnly
    ensures p.Valid() && p.jointPrefix == jointPrefix
    ensures p.baseFrame == baseFrame && p.toolFrame == toolFrame
  {
    p := new RTPublisher(jointPrefix, baseFrame, toolFrame);
  }
}
