/** What the Kafka modules share: a partition of a topic. */
module KafkaPartition {
  datatype Partition = Partition(topic: string, id: int)
}
