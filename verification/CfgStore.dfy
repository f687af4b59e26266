/** The configuration in flash: saved as the generated object, loaded over the defaults after a restart. */
module CfgStore {
  import opened Lists
  import opened CfgJson
  import opened CfgModel
  import CfgScan
  import CfgGenerate
  import CfgParse

  /** `Undefined` is for an object whose list of MAC addresses does not fit into its array. */
  datatype Status = Loaded | NotExist | Undefined

  class Settings {
    var stored: Option<Json>

    constructor ()
      ensures stored == None
    {
      stored := None;
    }

    /** Writing to flash: it may fail, and if there is no space all of it is erased for a second try. */
    method Write(j: Json) returns (ok: bool)
      modifies this
      ensures ok ==> stored == Some(j)
      ensures !ok ==> stored == old(stored) || stored == None
    {
      var spaceLeft: bool := *;
      ok := *;
      if !spaceLeft {
        stored := None;
      }
      if ok {
        stored := Some(j);
      }
    }

    /** If the object cannot be generated the old configuration stays. */
    method SaveToFlash(c: Cfg, f: Firmware) returns (ok: bool)
      requires Valid(c, f)
      modifies this
      ensures ok ==> stored == Some(Save(c, f))
      ensures !ok ==> stored == old(stored) || stored == None
    {
      var r, j := CfgGenerate.Generate(c, f);
      if r.NoMemory? {
        return false;
      }
      ok := Write(j);
    }

    /** Without a readable configuration, and without the memory to read it, the defaults are used. */
    method GetFromFlash(f: Firmware) returns (status: Status, cfg: CfgParse.GwCfg)
      requires Valid(f.d, f)
      ensures fresh(cfg) && fresh(cfg.filterMacs)
      ensures status.Loaded? ==> stored.Some? && cfg.View() == Load(stored.value, f)
      ensures status.NotExist? ==> cfg.View() == f.d
      ensures status.Undefined? ==> stored.Some? && !CfgScan.ListFits(stored.value)
      ensures stored.Some? && !CfgScan.ListFits(stored.value) ==> !status.Loaded?
    {
      cfg := new CfgParse.GwCfg(f.d);
      var memory: bool := *;
      if stored.None? || !memory {
        return NotExist, cfg;
      }
      var fits := cfg.Parse(stored.value, f);
      status := if fits then Loaded else Undefined;
    }

    /** What a configuration is after it was saved and loaded again: the same by the firmware's comparison exactly if
        each of its parts survives, and saving and loading it once more changes nothing. */
    method SaveAndGet(c: Cfg, f: Firmware) returns (done: bool, cfg: CfgParse.GwCfg)
      requires Valid(c, f) && Valid(f.d, f)
      modifies this
      ensures fresh(cfg) && fresh(cfg.filterMacs)
      ensures done ==>
                var once := cfg.View();
                && Valid(once, f) && (Same(once, c) <==> Survives(c, f))
                && CfgScan.ListFits(Save(once, f)) && Load(Save(once, f), f) == once
      ensures !done ==> stored == old(stored) || stored == None || stored == Some(Save(c, f))
    {
      RoundTripIff(c, f);
      SaveLoadIdempotent(c, f);
      done := SaveToFlash(c, f);
      var status;
      status, cfg := GetFromFlash(f);
      done := done && status.Loaded?;
    }
  }
}
