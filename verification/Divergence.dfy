/** The daemon's comparison of a /health document with the snapshot it last delivered. */
module Divergence {
  import opened Decimals
  import opened CursorSpec

  /** What `json.loads` returns. */
  datatype Py = PyNone | PyBool(b: bool) | PyNum(n: Decimal) | PyStr(s: string)
              | PyList(items: seq<Py>) | PyDict(entries: map<string, Py>)

  function SessionDict(s: Session): Py {
    PyDict(map["type" := PyStr(s.kind), "used_pct" := PyNum(s.usedPct), "resets_at" := PyNum(OfInt(s.resetsAt)),
               "rolling" := PyBool(s.rolling), "window_duration_mins" := PyNum(OfInt(s.windowMins))])
  }

  function SessionDicts(list: seq<Session>): seq<Py> {
    if list == [] then [] else [SessionDict(list[0])] + SessionDicts(list[1..])
  }

  /** `_firmware_diverged`: any structural mismatch counts as divergence. */
  function FirmwareDiverged(body: map<string, Py>, expected: Snapshot): bool {
    if "agents" !in body || !body["agents"].PyDict? then true
    else
      var byAgent := body["agents"].entries;
      if expected.agent !in byAgent || !byAgent[expected.agent].PyDict? then true
      else
        var stored := byAgent[expected.agent].entries;
        (if "sessions" in stored then stored["sessions"] else PyNone) != PyList(SessionDicts(expected.sessions))
  }

  /** The one document shape that is not a divergence: `agents` holds the agent with exactly the expected sessions. */
  lemma InStepExactly(body: map<string, Py>, expected: Snapshot)
    ensures !FirmwareDiverged(body, expected) <==>
            exists agents, mine ::
              && "agents" in body && body["agents"] == PyDict(agents)
              && expected.agent in agents && agents[expected.agent] == PyDict(mine)
              && "sessions" in mine && mine["sessions"] == PyList(SessionDicts(expected.sessions))
  {
    if !FirmwareDiverged(body, expected) {
      var agents := body["agents"].entries;
      assert agents[expected.agent] == PyDict(agents[expected.agent].entries);
    }
  }
}
