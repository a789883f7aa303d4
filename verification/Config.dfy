/** Types and constants shared by the three threads (config.h, datamgr.h). */
module Config {

  datatype Option<+T> = None | Some(value: T)

  /** The 16-bit unsigned sensor id. */
  type SensorId = x: int | 0 <= x < 0x1_0000

  /** One measurement, as received from a sensor node. */
  datatype Reading = Reading(id: SensorId, value: real, ts: int)

  /** The two consumers of the shared buffer. */
  datatype Reader = DATAMGR | SQLMGR {
    function Other(): Reader {
      if DATAMGR? then SQLMGR else DATAMGR
    }
  }

  /** The result codes of the buffer operations that can occur on an allocated buffer. */
  datatype Code = SUCCESS | EMPTY_BUFF | NO_NEW_DATA

  /** Length of the sliding window of a sensor. */
  const RUN_AVG_LENGTH: nat := 5
}
