/** The shared settings of mqtt_init.py that the modelled components read.
    Broker address, port and credentials are transport details and are not
    part of this model. */
module Config {

  /** `BASE_TOPIC`: every bin topic starts with it; note the trailing `/`. */
  const BaseTopic: string := "municipal/bins/"

  /** `ALARM_TOPIC`, the topic the data manager publishes alarms on. */
  const AlarmTopic: string := BaseTopic + "alarm"

  /** `BIN_FILL_LEVEL_THRESHOLD`, in percent. */
  const FillLevelThreshold: real := 80.0

  /** `BIN_EMPTY_THRESHOLD`, in percent (imported by the data manager, never used). */
  const EmptyThreshold: real := 5.0
}
