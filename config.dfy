/** The application's fixed configuration values (config.py). */
module Config {
  const AppName := "InsporaRadio"
  const CurrentVersion := "1.0.3"
  const DiscordClientId := "1419735937545404456"
  /** Stream and now-playing endpoint of the built-in fallback station. */
  const StreamUrl := "https://radio.inspora.fr/listen/wazouinfraweb/radio.mp3"
  const ApiUrl := "https://radio.inspora.fr/api/nowplaying/1"
  const GithubRepo := "celesteoffi/AppWebRadio"
  const MapUrl := "https://raw.githubusercontent.com/celesteoffi/AppWebRadio/main/images_map.json"
  const StationsUrl := "https://raw.githubusercontent.com/celesteoffi/AppWebRadio/main/stations.json"
}
