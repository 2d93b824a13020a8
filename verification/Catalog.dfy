/**
  The block types of `Blocks` as templates of the builder: simulations of these blocks run without
  further conditions on their computational functions.
 */
module Catalog {
  import opened Dataflow
  import opened Wiring
  import opened Irpar
  import opened Plan
  import opened Setup
  import Blocks

  /** 1 | (sizeof(double) << 5) */
  const DATATYPE_FLOAT := 257

  /** A block description: the block type with its parameters, and the events it registers. */
  datatype Description = Description(kind: Blocks.Kind, events: seq<nat>)
  {
    /** What COMPF_FLAG_CONFIGURE and COMPF_FLAG_INIT set up; all ports are scalar. */
    function Configured(): Template {
      var feed := kind.Feed();
      Template(kind.Dynamic(), kind.Comp(),
               seq(kind.Inputs(), _ => PortConfig(1, DATATYPE_FLOAT)),
               seq(if kind.Switch? then 2 else 1, _ => OutConfig(1, DATATYPE_FLOAT, feed)),
               kind.Initial(), events)
    }
  }

  function Templates(descriptions: seq<Option<Description>>): (catalog: seq<Option<Template>>)
    ensures |catalog| == |descriptions|
  {
    seq(|descriptions|, s requires 0 <= s < |descriptions| =>
      if descriptions[s].None? then None else Some(descriptions[s].value.Configured()))
  }

  /** Each of these block types declares direct feedthrough if its outputs depend on its inputs. */
  lemma ConfiguredHonest(d: Description)
    ensures Honest(d.Configured())
  {
    var k := d.kind;
    if !k.Feed() {
      Blocks.KindHonorsFeed(k, [], {}, []);
      forall s: State, x: seq<Val> ensures k.Comp().out(s, x) == k.Comp().out(s, []) {
        assert Node(k.Dynamic(), k.Feed(), [], k.Comp(), {}, []).HonorsFeed();
      }
    } else {
      assert d.Configured().outs[0].dinput;
    }
  }

  /** Their outputs have the declared sizes in every state and for all inputs. */
  lemma OutputsHaveDeclaredSizes(d: Description, s: State, x: seq<Val>)
    ensures var out, outs := d.kind.Out(s, x), d.Configured().outs;
            |out| == |outs| && forall o | 0 <= o < |outs| :: |out[o]| == outs[o].len
  {
  }

  lemma TemplatesHonest(env: Env, descriptions: seq<Option<Description>>)
    requires env.catalog == Templates(descriptions)
    ensures AllHonest(env)
  {
    forall s | 0 <= s < |env.catalog| && env.catalog[s].Some? ensures Honest(env.catalog[s].value) {
      ConfiguredHonest(descriptions[s].value);
    }
  }

  /** From parameters to outputs, for any descriptions of these block types. */
  method RunDescribed(env: Env, descriptions: seq<Option<Description>>, inptr: seq<Val>, acts: seq<Action>)
    returns (code: int, seen: seq<Seen>)
    requires env.catalog == Templates(descriptions) && Buildable(env) && Paired(acts)
    ensures code == if WellDescribed(env) then 0 else -1
    ensures code == 0 ==>
      var p := Described(env);
      var m := StartMem(env, p, inptr);
      && (exists live, trace: seq<Ref> :: MeantRun(p.graph, live, m, acts, trace))
      && (forall live, trace: seq<Ref> | MeantRun(p.graph, live, m, acts, trace) ::
            seen == AllSeen(p.outs, trace[|acts|]))
  {
    TemplatesHonest(env, descriptions);
    code, seen := SetupAndRun(env, inptr, acts);
  }
}
